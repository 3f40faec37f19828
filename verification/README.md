# Goblin: a verified model of its core

Goblin keeps keys and values in RocksDB, but decides everything through a replicated log. The leader answers from an
overlay in memory and appends what commands change, under versions that it hands out; every node replays the log into
its own RocksDB at its own pace. So the same fact lives in several places at once: in the overlay, in the log, in the
part of the log that is committed, in what a reply has told a client. A second service assigns shards to clusters.

This project proves when those places agree, over all runs with crashes, elections, retries and interleavings, and
where the code lets them disagree it says exactly when. `dafny verify dfyconfig.toml` checks all of it.

| file | what it models |
|---|---|
| `Base.dfy` | keys, records, events, and the replay of events into a map |
| `InMemoryStore.dfy` | the overlay: cached entries, user meta, tombstones, expiry on read, version-guarded eviction |
| `CacheAgreement.dfy` | the overlay against the log: bundles, ttl, reads, evictions, the apply loop, taking leadership |
| `ApplyLoop.dfy` | load, apply with retries, commit batch and milestone, crash, recover |
| `LeaderPipeline.dfy` | many nodes over an abstract Raft log: versions, persist queue, numbering, leader changes, writes |
| `Replies.dfy` | on top of it: reads waiting for the max version, replies that raise it later, what a read returned |
| `LockOrder.dfy` | the lock plan of a command, and any number of commands taking and releasing locks |
| `SegmentedStore.dfy` | the overlay split into working sets and 4096 segments each |
| `Transaction.dfy` | preconditions, entries against a scratch store, the response |
| `Generate.dfy` | read without lock, compute, lock, validate, write; with the balance transfer |
| `HashRing.dfy` | the ring of virtual nodes: probing, hand-over, placement |
| `ClusterSet.dfy` | concurrent add-cluster and start-cluster handlers over one key-value store |
| `Watch.dfy` | the watch registry with its two indexes |
| `WatchLog.dfy` | the registry under the apply loop: what a watch hears against what the log holds |
| `Compaction.dfy` | the ttl compaction filter, and ttl inheritance of puts |
| `Lru.dfy` | the least-recently-used list that proposes evictions |

Objects that the source updates in place are classes whose methods are proved equal to specification functions on
values; what happens over whole runs, crashes and interleavings is proved about those functions as state machines.
Clock readings, hash functions, random identifiers and the choice of who runs next are parameters or steps. One
command reads the clock once.

## Where the code narrows the obvious claim

These are proved as exact conditions, with a run or an input that fails them where one call does not show it. Two items
are proved in one direction only and say so.

- A delete that does not find its key cached leaves no tombstone, so an evicted and then deleted key stays readable
  until the apply loop has passed the delete (`CacheAgreement.FinishKeepsIff`,
  `CacheAgreement.DeleteOfEvictedKeyStaysReadable`).
- Reading or evicting an expired entry drops it, and a live record that it hid comes back unless none is left from the
  milestone on (`CacheAgreement.ReadKeepsIff`, `CacheAgreement.SubmittedEvictionIsSafeIff`,
  `CacheAgreement.ExpiredReadRevives`).
- The flush made when leadership is taken does nothing, so clearing the overlay is safe exactly when no key touched by
  a bundle above the milestone has a live record, at the milestone or after any later bundle
  (`CacheAgreement.TakeLeadershipKeepsIff`, `CacheAgreement.TakenLeadershipHidesWrite`).
- It is enough to avoid all of these, though not necessary, that a leader logs no ttl, deletes only what it has cached,
  evicts with the version of a committed bundle and takes over only a store that has caught up
  (`CacheAgreement.CarefulRunAgrees`).
- An empty user meta does not clear an older one (`InMemoryStore.MetaReadBackIff`), and reading the meta ignores
  tombstones (`InMemoryStore.MetaSurvivesDelete`). The meta of an entry that only expires stays behind, and a later
  put without meta shows it again (`InMemoryStore.MetaIsLostIff`).
- Every reply raises the max version, also that of a failed write. A failed write of the current term always raises it
  above what the node knows to be committed; one of an earlier term does when its version is newer than that. A read
  is then answered with a value that is lost (`Replies.StepKeepsBoundIff`, `Replies.FailedWriteAnswersLostRead`). A
  variant in which failed writes raise nothing, marked as `corrected`, keeps the bound in every run.
- A reply to a read never looks at the term of the read. One that outlives its term can go out with a lost value even
  if no write ever fails; what it returned is chosen exactly when the log held that bundle when the next term was
  entered (`Replies.AnsweredReadIsChosenIff`, `Replies.OldReadReturnsLostValue`).
- A write is answered as failed only when the log of the node does not hold it. That says nothing yet about other nodes:
  the write is never chosen later unless it was chosen, or in the log of another node, at that moment. No run is given in
  which it is (`LeaderPipeline.GivenUpIsGone`, `LeaderPipeline.GivenUpIsChosenOnlyIfHeld`).
- Versions increase along every log even if the persist queue holds requests of an earlier term when a leader starts.
  But such a term then admits nothing at all (`LeaderPipeline.LeftoverBlocksTerm`).
- A remove inside a transaction leaves no mark in the scratch store (`Transaction.SequentialIffFaithful`,
  `Transaction.ReadAfterRemoveFindsIt`).
- The check of generated keys stops where the requested keys end. An accepted command then writes keys that it has
  neither read nor locked, unless it reads all keys beyond the requested ones (`Generate.AcceptedLocksIff`,
  `Generate.UnreadAccountIsOverwritten`). A transfer that reads both accounts conserves the total exactly when the two
  64-bit sums wrap together (`Generate.FinishConservesIff`).
- Starting one of several clusters does not raise the route version, and fails an assertion when none of them routes
  yet (`ClusterSet.StartBumpsRouteIffAlone`, `ClusterSet.StartAfterTwoAddsCrashes`).
- A watch that names a key more than once gets every change that many times (`Watch.WatchDelivers`,
  `Watch.DeliversOnceIff`).
- Writes with a ttl are never reported to the registry, and a bundle that is tried again is reported again. What a
  watch gets is what the log holds exactly when neither has happened to the key since registration
  (`WatchLog.DeliversLogIff`, `WatchLog.TtlWriteIsNotReported`, `WatchLog.RetriedWriteComesTwice`).
- Writing a cached key with another size makes the usage counter of the list wrong by the difference
  (`Lru.WriteKeepsCountIff`). A write that takes the counter above the optimum sheds keys until the counter is zero or
  the batch is full, and not just down to the optimum (`Lru.ShedRunsUntil`).

## What is assumed of Raft

`LeaderPipeline.dfy` takes from Raft: one leader for a term; a candidate that becomes leader has every chosen entry
(section 5.4 of the Raft paper by Ongaro and Ousterhout); a leader chooses up to an entry of its own term; a follower
takes over a prefix of a leader's log and never drops what it knows to be committed; a request is admitted only by
the leader of its term and at the index it carries. The switch to a new term is one step because the source holds the
command mutex throughout and waits until no command runs; it may come after the node has stepped down, and over a log
that others have extended since the readiness scan. Numbering a queued request is one step as well. A term switch
may come between its read of the last index and its compare-and-swap. If the new last index differs from the one read,
the swap fails, which is the same as numbering first and switching afterwards. If it is equal, the swap succeeds, which
is the same as switching first and numbering afterwards.

## Model

| member | source | states |
|---|---|---|
| `Base.ReplayRetry` | server/src/kv-engine/execution/EventApplyLoop.cpp:67-94 | applying any part of a bundle and then the whole bundle again leaves the store as applying it once |
| `Base.ReplayForgets` | server/src/kv-engine/model/Event.cpp:61-75 | what a replay leaves under a key that it touches does not depend on the store it started from |
| `InMemoryStore.InMemoryKVStore.WriteKV` | server/src/kv-engine/store/InMemoryKVStore.cpp:37-52 | the entry never expires, a non-empty meta replaces the old one, the tombstone goes |
| `InMemoryStore.InMemoryKVStore.WriteTTLKV` | server/src/kv-engine/store/InMemoryKVStore.cpp:54-70 | the same with ttl and deadline |
| `InMemoryStore.InMemoryKVStore.ReadKV` | server/src/kv-engine/store/InMemoryKVStore.cpp:73-101 | cache, then tombstone, then the store below; reading an expired entry misses and drops it, and nothing else changes |
| `InMemoryStore.InMemoryKVStore.DeleteKV` | server/src/kv-engine/store/InMemoryKVStore.cpp:112-126 | a cached key loses entry and meta and gets a tombstone unless it has one; a key that is not cached is left alone |
| `InMemoryStore.InMemoryKVStore.EvictKV` | server/src/kv-engine/store/InMemoryKVStore.cpp:175-207 | the loop over the keys, in any order, treats each key on its own: readable and not newer than the guard leaves no trace, expired only loses its entry, everything else stays |
| `InMemoryStore.EvictOneMore` | server/src/kv-engine/store/InMemoryKVStore.cpp:175-207 | evicting one more key afterwards is evicting it together with the others |
| `InMemoryStore.InMemoryKVStore.Clear` | server/src/kv-engine/store/InMemoryKVStore.cpp:169-173 | entries, metas and tombstones are gone |
| `InMemoryStore.WriteReadsBack` | server/src/kv-engine/store/InMemoryKVStore.cpp:54-101 | a write reads back with value, version and ttl until its deadline, and changes nothing that reads of other keys show |
| `InMemoryStore.StoredReadsBack` | server/src/kv-engine/store/RocksDBKVStore.cpp:332-402 | what was written below reads back until its deadline, with the meta it was stored with |
| `InMemoryStore.EvictionLeavesNoTrace` | server/src/kv-engine/store/InMemoryKVStore.cpp:175-207 | a key that is readable and not newer than the guard is in none of the three maps afterwards |
| `InMemoryStore.EvictionSpares` | server/src/kv-engine/store/InMemoryKVStore.cpp:175-207 | a key that is not named or newer than the guard shows the same value and meta afterwards |
| `InMemoryStore.MetaIsLostIff` | server/src/kv-engine/store/InMemoryKVStore.cpp:89-126 | a put without meta shows none if and only if none was kept, or the key was deleted while cached, or an eviction of it went through; an expired read or the delete of an uncached key leaves the old meta to be shown |
| `InMemoryStore.MetaReadBackIff` | server/src/kv-engine/store/InMemoryKVStore.cpp:44-48 | the meta read back is the one written if and only if it is non-empty or none was kept for the key |
| `InMemoryStore.ExpiredReadStaysMissingIff` | server/src/kv-engine/store/InMemoryKVStore.cpp:89-94 | after an expired read the key stays missing if and only if the store below has no live record |
| `InMemoryStore.MetaSurvivesDelete` | server/src/kv-engine/store/InMemoryKVStore.cpp:128-132 | a deleted key still shows the meta of the record below |
| `CacheAgreement.StepAgreesIff` | server/src/kv-engine/store/InMemoryKVStore.cpp:37-207 | from a state where every unlocked key reads as the replay of the whole log says, from now on and however far the apply loop gets, a step leads to such a state if and only if it is safe; with ttl, bundles of several events and reads that drop what has expired |
| `CacheAgreement.RunAgrees` | server/src/kv-engine/execution/EventApplyLoop.cpp:41-60 | in every run of safe steps the overlay reads as the replay of the whole log in every state |
| `CacheAgreement.CarefulRunAgrees` | server/src/kv-engine/execution/CommandProcessor.cpp:243-298 | in every run that logs no ttl, finishes each bundle with an entry or a tombstone for each of its keys, evicts with submitted guards and takes leadership only when the milestone covers the log, the overlay reads as the replay of the whole log in every state |
| `CacheAgreement.LoopServesCache` | server/src/kv-engine/execution/EventApplyLoop.cpp:26-96 | in every run of the apply loop its store is the persistent store of a leader over the same bundles and milestone, and its guard version is one that the leader may submit evictions with |
| `CacheAgreement.CaughtUpIsSafe` | server/src/kv-engine/execution/EventApplyLoop.cpp:41-60 | once the milestone covers the log, leadership is safe to take and an eviction under the version of the last bundle is safe and drops every key it names |
| `CacheAgreement.SubmittedEvictionIsSafeIff` | server/src/kv-engine/strategy/CacheEviction.cpp:22-32 | an eviction submitted with the version of the last committed bundle never drops a live entry too soon, whenever it comes to run; it is safe if and only if no expired entry among its keys, written after the milestone, hides a live record |
| `CacheAgreement.PersistedMayDrop` | server/src/kv-engine/strategy/CacheEviction.cpp:22-32 | an entry not newer than the milestone may be dropped, expired or not |
| `CacheAgreement.ReadKeepsIff` | server/src/kv-engine/store/InMemoryKVStore.cpp:89-94 | a read keeps the agreement if and only if its entry is alive, or the store shows no live record of the key from the milestone on |
| `CacheAgreement.ExpiredReadRevives` | server/src/kv-engine/store/InMemoryKVStore.cpp:89-94 | a run in which reading an expired entry brings the older value back |
| `CacheAgreement.FinishKeepsIff` | server/src/kv-engine/model/KVDeleteCommand.cpp:114-153 | finishing a bundle keeps the agreement if and only if each key it touches gets an entry or a tombstone, or no live record of it is left below up to that bundle |
| `CacheAgreement.EvictKeepsIff` | server/src/kv-engine/model/KVEvictCommand.cpp:19-32 | a locked eviction keeps the agreement if and only if each live entry it drops is not newer than the milestone and each expired one hides no live record |
| `CacheAgreement.TakeLeadershipKeepsIff` | server/src/kv-engine/execution/CommandProcessor.cpp:115-122 | clearing the overlay keeps the agreement if and only if no key that a bundle above the milestone touches has a record alive now, in the store at the milestone or after any later bundle |
| `CacheAgreement.LeadershipNeedsLog` | server/src/kv-engine/store/WSConcurInMemoryKVStore.cpp:201-209 | leadership is safe to take when the milestone covers the log, and not while a bundle above it writes or deletes a key that has a live record at the milestone or later |
| `CacheAgreement.TakenLeadershipHidesWrite` | server/src/kv-engine/execution/CommandProcessor.cpp:115-122 | a run in which a logged write is unreadable after leadership was taken |
| `CacheAgreement.PersistKeeps` | server/src/kv-engine/execution/CommandProcessor.cpp:243-294 | logging the bundle of a command that holds its locks keeps the agreement of all other keys |
| `CacheAgreement.CommitKeeps` | server/src/kv-engine/execution/EventApplyLoop.cpp:41-60 | moving the milestone along the log keeps the agreement |
| `CacheAgreement.DeleteOfEvictedKeyStaysReadable` | server/src/kv-engine/store/InMemoryKVStore.cpp:117-120 | a run in which a key that is not cached is deleted and stays readable |
| `ApplyLoop.StoreFollowsLog` | server/src/kv-engine/execution/EventApplyLoop.cpp:26-113 | in every run with crashes and retries the store is the replay of exactly the log up to its milestone, store and batch are the replay up to the applied index, and the bundles applied since recovery are all of that stretch, in order |
| `ApplyLoop.GuardIsMilestoneVersion` | server/src/kv-engine/execution/EventApplyLoop.cpp:54-59 | the version that guards evictions is none until the first commit since recovery, and then the one that the events of the bundle at the milestone carry: a write in its entry, a delete as its own |
| `ApplyLoop.GuardSeparates` | server/src/kv-engine/execution/EventApplyLoop.cpp:54-59 | in every run over a log of increasing versions, from the first commit since recovery on, no record in the store is newer than the guard, and every event above the milestone is |
| `Base.CarriesBundleVersion` | server/src/kv-engine/model/Event.cpp:48-59 | the version of a bundle is the one that all its events carry |
| `Base.ReplayRecord` | server/src/kv-engine/model/Event.cpp:61-75 | a record that a bundle leaves under a key it touches has the version of the bundle |
| `ApplyLoop.RetriesReplay` | server/src/kv-engine/execution/EventApplyLoop.cpp:67-94 | however many attempts stopped at whatever event, the bundle counts once |
| `ApplyLoop.StepKeepsInv` | server/src/kv-engine/execution/EventApplyLoop.cpp:26-113 | every step of load, pop, apply, commit, crash and recover keeps store, batch, cache and indexes in line with the log |
| `ApplyLoop.Applier.LoadNextBundle` | server/src/kv-engine/raft/RaftEventStore.cpp:43-77 | the next bundle comes from the cache or from reading on; only no-ops lie before it, and there is none only if the log was read up to the commit index or a read of it was empty |
| `ApplyLoop.LoadBundles` | server/src/kv-engine/raft/RaftEventStore.cpp:79-98 | a stretch of the log with its no-ops dropped, in order |
| `ApplyLoop.Applier.RecoverSelf` | server/src/kv-engine/execution/EventApplyLoop.cpp:98-113 | all indexes start again at the stored milestone, or at zero, and the invariant holds |
| `ApplyLoop.Applier.ApplyBundle` | server/src/kv-engine/execution/EventApplyLoop.cpp:67-94 | the batch grows by the attempts and the whole bundle, and stays in line with the log |
| `ApplyLoop.Attempts` | server/src/kv-engine/execution/EventApplyLoop.cpp:67-89 | the batch after attempts that stop half way and one that goes through |
| `ApplyLoop.Applier.CommitMilestone` | server/src/kv-engine/store/RocksDBKVStore.cpp:404-448 | batch and milestone reach the store together, and the guard version follows |
| `LeaderPipeline.VersionsIncreaseEverywhere` | server/src/kv-engine/execution/CommandProcessor.cpp:59-142 | in every reachable state versions strictly increase along the log of every node and along the chosen log, within a term and across leader changes |
| `LeaderPipeline.AnsweredWriteIsDurable` | server/src/kv-engine/raft/ReplyLoop.cpp:82-140 | a write is answered OK only when its own bundle is chosen at its index, and it is there in every later state |
| `LeaderPipeline.StepKeepsInv` | server/src/kv-engine/raft/RaftEventStore.cpp:256-306 | every step of Raft and of the pipeline keeps logs, terms, queue, numbered requests and written entries in line on every node |
| `LeaderPipeline.NumberedOk` | server/src/kv-engine/raft/RaftEventStore.cpp:268-306 | a queued request of an earlier term is numbered behind a chosen entry of a later one; one of the current term gets a fresh index and term |
| `LeaderPipeline.AdmittedIsOwn` | server/src/kv-engine/raft/RaftEventStore.cpp:268-306 | a request that a leader admits is exactly the next command of its term, without a gap in versions, and the term began with an empty queue |
| `LeaderPipeline.OkEntryIsOwn` | server/src/kv-engine/raft/ReplyLoop.cpp:114-121 | a committed entry of the term of a request at its index is the bundle of that request |
| `LeaderPipeline.WaitTillCommittedOrQuit` | server/src/kv-engine/raft/ReplyLoop.cpp:82-126 | a poll whose log holds the entry uncommitted, or shows the term of the write still on, never ends the wait; the first that shows the index committed, or the log too short and the term over, does; the answer is committed if and only if the entry committed at the index is of the term, and otherwise the log has no entry of that term there |
| `LeaderPipeline.GivenUpIsGone` | server/src/kv-engine/raft/ReplyLoop.cpp:110-121 | in every run a write is answered as failed only while the log of the node does not hold its bundle at its index, and can no longer admit it |
| `LeaderPipeline.GivenUpIsChosenOnlyIfHeld` | server/src/kv-engine/raft/ReplyLoop.cpp:82-126 | in every run a write that was given up is chosen later only if its bundle was chosen, or in the log of another node, at that moment |
| `LeaderPipeline.CommittedStaysInLog` | server/src/kv-engine/raft/RaftEventStore.cpp:128-187 | no step takes from a log what its node knows to be committed; a restart keeps log and term and forgets the queue and the requests |
| `LeaderPipeline.ScanReady` | server/src/kv-engine/raft/RaftEventStore.cpp:128-187 | a leader is ready if and only if everything after its last applied bundle is a no-op and the last one is of its term; the version handed on is that of the last bundle in the log |
| `LeaderPipeline.LeftoverBlocksTerm` | server/src/kv-engine/raft/RaftEventStore.cpp:268-306 | in every run only a node that entered its term with an empty persist queue has a request admitted |
| `LeaderPipeline.LeftoverIsFixed` | server/src/kv-engine/raft/RaftEventStore.cpp:189-191 | the number of leftover requests is what the queue holds when a term is entered, and no later step of the term changes it |
| `Replies.AnsweredReadIsChosen` | server/src/kv-engine/raft/ReplyLoop.cpp:141-155 | in every run whose failed writes are harmless, and in every run of the corrected variant, a read answered in the term it ran in returned a value that is in the chosen log then and for good, however replies and raises interleave |
| `Replies.AnsweredReadIsChosenIff` | server/src/kv-engine/raft/ReplyLoop.cpp:128-193 | in those runs any answered read returned a chosen value if and only if it found nothing or a committed bundle, or ran in the current term, or its bundle was in the log when that term was entered |
| `Replies.RunBound` | server/src/kv-engine/raft/ReplyLoop.cpp:186-187 | in those runs the max version never exceeds the version of what the node knows to be committed in its term |
| `Replies.StepKeepsBoundIff` | server/src/kv-engine/raft/ReplyLoop.cpp:186-187 | a step keeps that bound if and only if it is not a failed write of the current term, nor one of an earlier term that is newer than the last version known to be committed; in the corrected variant always |
| `Replies.LostIsAboveKnown` | server/src/kv-engine/raft/ReplyLoop.cpp:110-121 | a failed write of the current term is newer than everything known to be committed in that term |
| `Replies.SteadyLeaderFailsOnlyOld` | server/src/kv-engine/raft/ReplyLoop.cpp:110-121 | a node that still leads its term fails only writes of earlier terms |
| `Replies.KnownIsCommitted` | server/src/kv-engine/raft/RaftEventStore.cpp:268-306 | every version from the recovered to the known one is that of a committed bundle of the very command that was given it |
| `Replies.KnownIsRecovered` | server/src/kv-engine/execution/CommandProcessor.cpp:113-122 | whatever a reply of an earlier term may still raise is at most the version recovered for the next |
| `Replies.EveryReplyRaises` | server/src/kv-engine/raft/ReplyLoop.cpp:128-193 | every reply, to a read and to a write that went through or failed, leaves its version to be raised |
| `Replies.AnsweredReadHasWaited` | server/src/kv-engine/execution/CommandProcessor.cpp:244-263 | in every run the max version at an answered read is at least the version of what was found, and for a read that found nothing at least what it was when the read ran |
| `Replies.FailedWriteAnswersLostRead` | server/src/kv-engine/raft/ReplyLoop.cpp:132-140 | a run in which a failed write lets a read of the same term go out with a value that is not chosen |
| `Replies.OldReadReturnsLostValue` | server/src/kv-engine/raft/ReplyLoop.cpp:143-155 | a run without any failed write in which a read of an earlier term goes out with a lost value |
| `Replies.StepKeepsInv` | server/src/kv-engine/execution/CommandProcessor.cpp:243-283 | what a read found stays what it is: a chosen bundle, or the command that holds its version in its term |
| `Replies.VersionStore.AllocateNextVersion` | server/src/kv-engine/store/VersionStore.cpp:24-37 | the next version of the term, and the counter moves on; an expected version is taken over and never lowers the counter |
| `Replies.VersionStore.UpdateCurMaxVersion` | server/src/kv-engine/store/VersionStore.cpp:47-53 | the max version only grows |
| `Replies.VersionStore.RecoverMaxVersion` | server/src/kv-engine/store/VersionStore.cpp:55-59 | both counters start again from the recovered version |
| `Replies.VersionStore.ReplyRead` | server/src/kv-engine/raft/ReplyLoop.cpp:141-155 | a read is answered if and only if its version is at most the max version, and raises nothing |
| `LockOrder.LockPlan` | server/src/kv-engine/store/WSConcurInMemoryKVStore.cpp:56-75 | exactly the locks that the keys need, once each, by working set name and then segment |
| `LockOrder.SegmentPlan` | server/src/kv-engine/store/ConcurInMemoryKVStore.cpp:53-78 | the segments of the keys of one working set, once each, in order |
| `LockOrder.ReachableIsSafe` | server/src/kv-engine/store/WSConcurInMemoryKVStore.cpp:56-105 | in every reachable state conflicting commands are not both between prepare and finish, and while a command is unfinished one that has arrived can go on |
| `LockOrder.ConflictingCommandsExclude` | server/src/kv-engine/store/ConcurInMemoryKVStore.cpp:53-110 | two commands that share a key, one of them exclusive, are never both between prepare and finish |
| `LockOrder.NoDeadlock` | server/src/kv-engine/store/WSConcurInMemoryKVStore.cpp:56-105 | a command that can go on, found among the waiting ones by the order of the locks |
| `LockOrder.RunsAreBounded` | server/src/kv-engine/store/ConcurInMemoryKVStore.cpp:53-104 | every step of an arrived command uses up one unit of the work left, so without arrivals all commands finish |
| `LockOrder.SharedNeverWait` | server/src/kv-engine/store/ConcurInMemoryKVStore.cpp:53-78 | a command that only reads can take its next lock unless an exclusive command holds it |
| `LockOrder.NameLessIff` | server/src/kv-engine/store/WSConcurInMemoryKVStore.cpp:56-75 | the order of working set names is that of a dictionary |
| `LockOrder.SegmentOf` | server/src/kv-engine/store/ConcurInMemoryKVStore.cpp:106-110 | the segment of a key is given by the top twelve bits of its 64-bit hash |
| `LockOrder.NameTotal` | server/src/kv-engine/store/WSConcurInMemoryKVStore.cpp:56-75 | the order of working set names is total |
| `SegmentedStore.RunBoth` | server/src/kv-engine/store/WSConcurInMemoryKVStore.cpp:117-223 | any sequence of writes, reads, deletes, evictions and clears gets the same answers from the split store and from a plain overlay |
| `SegmentedStore.SplitStep` | server/src/kv-engine/store/ConcurInMemoryKVStore.cpp:106-210 | changing one key in its own segment keeps the split: every key lives in its segment only, and there as in the plain overlay |
| `SegmentedStore.WSConcurInMemoryKVStore.WriteTTLKV` | server/src/kv-engine/store/WSConcurInMemoryKVStore.cpp:129-142 | the split store changes as the plain one |
| `SegmentedStore.WSConcurInMemoryKVStore.ReadKV` | server/src/kv-engine/store/WSConcurInMemoryKVStore.cpp:144-153 | the split store answers and changes as the plain one |
| `SegmentedStore.WSConcurInMemoryKVStore.DeleteKV` | server/src/kv-engine/store/WSConcurInMemoryKVStore.cpp:175-183 | the split store changes as the plain one |
| `SegmentedStore.WSConcurInMemoryKVStore.EvictKV` | server/src/kv-engine/store/WSConcurInMemoryKVStore.cpp:211-223 | evicting each key in its own segment is evicting all of them from the plain overlay |
| `SegmentedStore.WSConcurInMemoryKVStore.Clear` | server/src/kv-engine/store/WSConcurInMemoryKVStore.cpp:201-205 | every segment is empty |
| `Transaction.SequentialIffFaithful` | server/src/kv-engine/model/KVTransCommand.cpp:354-481 | results and stored map are those of the entries run one by one if and only if every entry is served: no read of a key removed before, no remove of a key written or removed before unless its target version makes it miss either way |
| `Transaction.LoneRemovesAreFaithful` | server/src/kv-engine/model/KVTransCommand.cpp:456-473 | every transaction whose removed keys occur in no other entry runs as its entries one by one |
| `Transaction.Process` | server/src/kv-engine/execution/CommandProcessor.cpp:232-298 | a failed precondition answers nothing, changes nothing and takes no version; otherwise exactly one version is taken if there is something to store and none if not, and the sequential reading holds if and only if every entry is served |
| `Transaction.CheckPrecond` | server/src/kv-engine/model/KVTransCommand.cpp:223-352 | succeeds if and only if every existence condition agrees with the locked view and every version condition asks for equality with the version stored, and none is of another kind; otherwise reports the first that fails, and how |
| `Transaction.Execute` | server/src/kv-engine/model/KVTransCommand.cpp:354-481 | one event for each entry, as the scratch store shows it at that point |
| `Transaction.InitSuccessResponse` | server/src/kv-engine/model/KVTransCommand.cpp:30-106 | one result for each entry; a read of a key written before it reports the version finally stored |
| `Transaction.ScratchStore.ReadKV` | server/src/kv-engine/store/TemporalKVStore.cpp:67-90 | own writes first, under the version not yet known, then the store below |
| `Transaction.ReadAfterRemoveFindsIt` | server/src/kv-engine/model/KVTransCommand.cpp:456-473 | a transaction that removes a key and still reads it |
| `Generate.TransfersConserve` | server/src/kv-engine/model/KVGenerateCommand.cpp:106-213 | in every interleaving of transfers that lock what they write, add up and find the accounts they do not read empty, the total never changes |
| `Generate.FinishConservesIff` | server/src/object-store/model/user-define/TransferCommand.cpp:11-41 | finishing a validated transfer that reads both accounts keeps the total if and only if its balances add up; one that adds up keeps it if and only if the accounts it does not read are empty |
| `Generate.AddsUpMeans` | server/src/object-store/model/user-define/TransferCommand.cpp:28-38 | new balances add up to the old ones if and only if both 64-bit sums wrap or neither does, or for one account the amount is zero |
| `Generate.Compute` | server/src/object-store/model/user-define/TransferCommand.cpp:11-41 | the two new balances in 64-bit arithmetic; fails if and only if a balance that was read is too large to parse |
| `Generate.NewBalancesAre` | server/src/object-store/model/user-define/TransferCommand.cpp:28-38 | the one account gets its balance less the amount and the other its balance plus the amount, each taken round 64 bits when it wraps; with one account at both ends the amount is only added |
| `Generate.FinishMoves` | server/src/kv-engine/model/KVGenerateCommand.cpp:203-213 | finishing a validated transfer that reads both accounts lowers the one and raises the other by exactly the amount unless a sum wraps, gives both the new version, and leaves every other account as it is |
| `Generate.ValidatesIff` | server/src/kv-engine/model/KVGenerateCommand.cpp:152-174 | validation passes if and only if every account that was read is still there exactly as it was read |
| `Generate.StepKeepsInv` | server/src/kv-engine/model/KVGenerateCommand.cpp:106-213 | for any transfers: what a command read is older than the next version and unchanged while its version is, locks of commands that hold them are disjoint |
| `Generate.StepKeepsCurrentIff` | server/src/kv-engine/model/KVGenerateCommand.cpp:152-213 | validated commands have read the accounts as they are, and a step keeps that if and only if no finishing command writes what another validated one has read |
| `Generate.LockedNeverTramples` | server/src/kv-engine/model/KVGenerateCommand.cpp:148-149 | a command that has locked what it writes never does |
| `Generate.AcceptedLocksIff` | server/src/kv-engine/model/KVGenerateCommand.cpp:134-149 | an accepted command has locked all keys it writes if and only if it reads every key it writes beyond the requested ones |
| `Generate.AcceptedWritesUnlocked` | server/src/kv-engine/model/KVGenerateCommand.cpp:145-147 | an accepted transfer that writes a key it has not locked |
| `Generate.UnreadAccountIsOverwritten` | server/src/object-store/model/user-define/TransferCommand.cpp:28-38 | a run in which such a transfer loses the balance of the account it did not read |
| `HashRing.HashRing.CalcShard` | server/src/object-manager/route/HashRing.cpp:38-45 | on a ring with room, probing ends at the first free slot at or after the hash |
| `HashRing.HashRing.AddClusterId` | server/src/object-manager/route/HashRing.cpp:66-102 | each virtual node goes to the first free slot from its own hash, in order; old points stay, every shard stays or goes to the new cluster; for every other cluster exactly the shards it owned before and the new one owns after are listed, each once; nothing is listed if and only if the ring was empty |
| `HashRing.ProbedUnique` | server/src/object-manager/route/HashRing.cpp:38-72 | ring, cluster and hash fix the points of the cluster |
| `HashRing.RingFromUnique` | server/src/object-manager/route/HashRing.cpp:66-102 | the list of clusters and the hash fix the ring |
| `HashRing.PlacementIsFixed` | server/src/object-manager/module/ClusterSetManager.cpp:328-377 | two placements of the same clusters under the same hash put every shard on the same cluster |
| `HashRing.FullIsLarge` | server/src/object-manager/route/HashRing.cpp:73-75 | a ring on which every cluster has all its virtual nodes is empty or has at least as many points as one cluster, so the test on the size never hides a hand-over |
| `HashRing.ArcIsTaken` | server/src/object-manager/route/HashRing.cpp:79-99 | the shards a new point takes are those up to the next point, and all belonged to the point before it |
| `HashRing.InsertMoves` | server/src/object-manager/route/HashRing.cpp:66-102 | a new point takes just the shards it is nearer to |
| `HashRing.HashRing.DeleteClusterId` | server/src/object-manager/route/HashRing.cpp:55-64 | exactly the points of the cluster go |
| `HashRing.RemoveMovesOnlyOwn` | server/src/object-manager/route/HashRing.cpp:55-64 | deleting a cluster leaves every shard of another cluster where it was |
| `HashRing.AddThenDelete` | server/src/object-manager/route/HashRing.cpp:55-102 | adding a fresh cluster and deleting it gives the ring back |
| `HashRing.AddThenDeleteRestores` | server/src/object-manager/route/HashRing.cpp:55-64 | without the points of a fresh cluster, a ring that gained only such points is the ring it was |
| `HashRing.HashRing.ExtractShardConfig` | server/src/object-manager/route/HashRing.cpp:107-135 | every one of the 4096 shards is listed once, under the cluster at the nearest point at or before it |
| `HashRing.PlaceShards` | server/src/object-manager/module/ClusterSetManager.cpp:328-377 | the placement is a partition of all shards over the routing clusters, or empty without any, and lists every shard under the cluster that serves it on the ring which list and hash give |
| `ClusterSet.CommitsAreSerial` | server/src/object-manager/module/ClusterSetManager.cpp:135-263 | in every interleaving a transaction that goes through is the one the records it meets call for |
| `ClusterSet.CommitsDo` | server/src/object-manager/module/Cluster.cpp:31-67 | in every run a committed add gives its servers to one cluster, a new one with status INIT and the largest id if none of them was taken, otherwise the one that had those taken, with the status it had; a committed start turns the cluster of its servers from INIT to IN_SERVICE; hosts, ids and route version follow, and every other cluster stays as it was |
| `ClusterSet.CommitsIff` | server/src/object-manager/module/ClusterSetManager.cpp:135-263 | in every run a handler goes through if and only if the global record is still the one it read and the records call for its transaction: the taken servers of an add belong to one cluster; those of a start are all taken, by one cluster in INIT that is alone or joins one that serves |
| `ClusterSet.ServesForever` | server/src/object-manager/module/ClusterSetManager.cpp:476-483 | a cluster that shards are routed to in some state of a run is one in every later state |
| `ClusterSet.ClustersAreSeparate` | server/src/object-manager/module/Cluster.cpp:69-137 | in every reachable state ids strictly increase, every server of a cluster is keyed to it, and no server is in two clusters |
| `ClusterSet.RecordsFollow` | server/src/object-manager/module/ClusterSetManager.cpp:494-524 | ids are only ever appended and the route version never goes down |
| `ClusterSet.CommitIsDecided` | server/src/object-manager/module/ClusterSetManager.cpp:111-133 | the guards make a commit fail unless everything the handler read one by one is still as it was |
| `ClusterSet.CommitKeepsRecords` | server/src/object-manager/module/Cluster.cpp:31-67 | a transaction computed from the records it meets keeps ids, clusters and host keys consistent |
| `ClusterSet.IsAddressInSameCluster` | server/src/object-manager/module/Cluster.cpp:69-105 | the loop over the answers computes the count and the common cluster |
| `ClusterSet.SameClusterMeans` | server/src/object-manager/module/Cluster.cpp:69-105 | it fails if and only if two taken hosts disagree; the count is zero if and only if none is taken, and complete if and only if all are |
| `ClusterSet.OnboardShards` | server/src/object-manager/module/ClusterSetManager.cpp:396-438 | adding a cluster to the ring of the routing ones hands over nothing if and only if there is none |
| `ClusterSet.StartBumpsRouteIffAlone` | server/src/object-manager/module/ClusterSetManager.cpp:177-263 | a started cluster becomes routing, and the route version rises if and only if it is the only cluster |
| `ClusterSet.StartCrashesIffNoneRouting` | server/src/object-manager/module/ClusterSetManager.cpp:396-438 | starting one of several clusters fails an assertion if and only if none is routing |
| `ClusterSet.StartAfterTwoAddsCrashes` | server/src/object-manager/module/ClusterSetManager.cpp:404-406 | a run in which two clusters are added and starting the first fails the assertion |
| `Watch.WatchDelivers` | server/src/object-store/watch/WatchCenter.cpp:23-102 | after any run, what a watch was handed for a key followed by what is pending is every change of that key that the registry was told of since registration: in order and once each if it names the key once, as many times each as it names the key otherwise |
| `Watch.DeliversOnceIff` | server/src/object-store/watch/WatchCenter.cpp:27-30 | once something was notified, deliveries are exact if and only if the key is named once |
| `Watch.UnregisteredLeavesNothing` | server/src/object-store/watch/WatchCenter.cpp:35-57 | after any run a key holds a wrap of a watch if and only if the watch is registered and names it, and no key is kept without a watch |
| `Watch.StepKeepsInv` | server/src/object-store/watch/WatchEntry.cpp:31-53 | every operation keeps both indexes in agreement and every delivery exact |
| `Watch.GatheredOf` | server/src/object-store/watch/WatchCenter.cpp:59-76 | of one key, a purge hands out exactly what was pending for it |
| `Watch.WatchCenter.RegisterWatch` | server/src/object-store/watch/WatchCenter.cpp:23-33 | one empty wrap for each time a key is named, behind the wraps that are there |
| `Watch.WatchCenter.UnRegisterWatch` | server/src/object-store/watch/WatchCenter.cpp:35-57 | false for an unknown watch; otherwise its wraps go from every list, empty lists go, and all others keep their order |
| `Watch.WatchCenter.PurgeWatchValue` | server/src/object-store/watch/WatchCenter.cpp:59-76 | false for an unknown watch; otherwise hands out its entries key by key and empties its wraps only |
| `Watch.WatchCenter.OnWriteValue` | server/src/object-store/watch/WatchCenter.cpp:78-90 | every wrap of the key gets the change at its end |
| `Watch.WatchCenter.OnDeleteKey` | server/src/object-store/watch/WatchCenter.cpp:92-102 | every wrap of the key gets the deletion at its end |
| `WatchLog.DeliversLogIff` | server/src/kv-engine/execution/EventApplyLoop.cpp:62-94 | in every run with crashes and retries, and with watches coming and going between any two events: a watch got exactly what was reported of a key since registration; between bundles that is, event for event, what the log holds of the key in that stretch if and only if no failed attempt has reported the key since and no write of the stretch gave it a ttl |
| `WatchLog.ReportsAddUp` | server/src/kv-engine/store/RocksDBKVStore.cpp:289-388 | the reports on a key since registration are as many as the log calls for in that stretch, plus those of failed attempts |
| `WatchLog.UptoIsStored` | server/src/kv-engine/execution/EventApplyLoop.cpp:62-94 | that stretch ends where the store is: between bundles store and batch are the replay of the same events |
| `WatchLog.StepKeepsInv` | server/src/kv-engine/KVEngineImpl.cpp:76-80 | every step of loop, attempt, registry, crash and recovery keeps reports, log and failed attempts in balance for every watch and key |
| `WatchLog.TtlWriteIsNotReported` | server/src/kv-engine/store/RocksDBKVStore.cpp:310-330 | a run in which a write with a ttl is stored and the watch on its key has nothing |
| `WatchLog.DeleteIsReported` | server/src/object-store/watch/WatchCenter.cpp:92-102 | a run in which a watch gets a delete as a deletion, with the version deleted and the version of the delete |
| `WatchLog.RetriedWriteComesTwice` | server/src/kv-engine/execution/EventApplyLoop.cpp:67-89 | a run in which the log holds a write once and the watch on its key gets it twice |
| `Compaction.CompactionIsInvisible` | server/src/kv-engine/store/RocksDBKVStore.h:122-136 | in any run of puts, reads, removals, commits, evictions, leadership changes and ticks with compactions anywhere, all answers, all logged events with their ttl and deadline, and the overlay are those of the run without compactions |
| `Compaction.StepAlike` | server/src/kv-engine/store/RocksDBKVStore.cpp:332-402 | a compacted and an uncompacted node answer every step alike and stay alike |
| `Compaction.MetaChangesIff` | server/src/kv-engine/store/RocksDBKVStore.cpp:390-402 | the meta read on its own changes by a compaction if and only if the key is not cached and its record is expired |
| `Compaction.ExecutePut` | server/src/kv-engine/model/KVPutCommand.cpp:109-148 | the entry that a put stores, with its inherited ttl |
| `Compaction.PutIsAlive` | server/src/kv-engine/model/KVPutCommand.cpp:124-143 | a put stores the value and version given in a live entry that expires exactly its ttl later; the ttl is the one asked for, or if none was given the one of a record still alive; it has one if and only if that is so |
| `Compaction.PutReadsBack` | server/src/kv-engine/store/RocksDBKVStore.cpp:332-448 | a get after a put shows its value, version, ttl and meta; and again from the persistent store after the put was committed and a leader has cleared the overlay |
| `Compaction.RemoveAfterPutIff` | server/src/kv-engine/model/KVDeleteCommand.cpp:114-153 | a removal after a put is logged if and only if it names no version or that of the put; then the key reads as missing, and otherwise nothing changes |
| `Compaction.EvictAfterPutIff` | server/src/kv-engine/store/InMemoryKVStore.cpp:175-207 | an eviction drops a put from the overlay if and only if its guard has reached the version |
| `Lru.ListIsRecency` | server/src/kv-engine/strategy/CacheEviction.cpp:34-76 | after any run the list holds exactly the cached keys, once each, most recently touched first; the pending batch is below the minimum; every submitted batch is within its bounds |
| `Lru.LeavesLeastRecent` | server/src/kv-engine/strategy/CacheEviction.cpp:59-73 | a key that a write makes leave was touched before every key that stays, and is pending or submitted |
| `Lru.WriteKeepsCountIff` | server/src/kv-engine/strategy/CacheEviction.cpp:44-70 | a right usage counter stays right if and only if the key was not cached or keeps its size |
| `Lru.WrittenGap` | server/src/kv-engine/strategy/CacheEviction.cpp:44-70 | apart from turns of the 64-bit counter, a write moves it away from the total by the old size minus the new one of a cached key |
| `Lru.CounterIsTotal` | server/src/kv-engine/strategy/CacheEviction.cpp:44-70 | if every write of a key has the same size, after any run the counter reads the total of the cached sizes as a 64-bit number, and the total itself while it fits |
| `Lru.ShedRunsUntil` | server/src/kv-engine/strategy/CacheEviction.cpp:61-70 | keys are shed one by one as long as the counter is above zero and the batch has room, and the loop stops only with the counter at zero, the list empty or the batch full |
| `Lru.WriteShedsIff` | server/src/kv-engine/strategy/CacheEviction.cpp:59-73 | a write that leaves the counter at or below the optimum sheds and submits nothing |
| `Lru.ShedIsSuffix` | server/src/kv-engine/strategy/CacheEviction.cpp:61-70 | the eviction loop moves a suffix of the list to the batch |
| `Lru.LRUEviction.OnWriteValue` | server/src/kv-engine/strategy/CacheEviction.cpp:44-76 | the new list, sizes, counter and batch, and what is submitted |
| `Lru.LRUEviction.OnReadValue` | server/src/kv-engine/strategy/CacheEviction.cpp:34-42 | a cached key moves to the front and nothing else changes |
| `Lru.LRUEviction.MaybeSubmitEvictCommand` | server/src/kv-engine/strategy/CacheEviction.cpp:22-32 | a batch of at least the minimum is submitted and forgotten |

## Left out

- Raft, RocksDB, protobuf and encryption: their code is not part of this model, which uses an abstract log, a map with a write batch, and datatypes in their place.
- Everything between a client and a command: calls over the network, queues of requests, configuration, metrics, logging.
- Imports and shard migration: an import brings its own version, which ends the order of versions along the log, and the source skips migration when it onboards a cluster.
- Stale reads served by followers: they promise no order, and their replies raise the max version of a node that does not lead.
- Transaction.CheckPrecond: conditions on user meta are not modelled; they read past the scratch store.
- Transaction.Execute: writes with a ttl and puts ignored by a user-meta condition are not modelled.
- Transaction.InitSuccessResponse: the latest version and the meta in the response are not modelled.
- Transaction.SequentialIffFaithful: entries with a ttl or with user meta are not modelled.
- Transaction.Process: the events that an error in the middle of the entries leaves behind are not modelled; with the conditions and entries above no such error arises.
- Transaction.ScratchStore.ReadKV: expiry and tombstones of the scratch store are not modelled; the entries above never reach them.
- InMemoryStore.InMemoryKVStore.ReadKV: the notification of observers is not modelled; `Lru.LRUEviction.OnReadValue` and the watch registry model what observers do.
- Locking a whole working set, and the fairness of the mutexes: a lock is granted or not by who holds it.
- SegmentedStore: keys whose working set is not configured, for which the source has no store.
- The ttl that a generate command refreshes, and what the comparison of key sets reads beyond the end of the shorter one.
- Removing clusters, migration records and route queries of the control plane: removal is not implemented in the source, and the other two only read or concern migration.
- Route checks of the object store: its shard map only grows, so there is no latest route for it to follow.
- The Java client, the admin tools and the old RocksDB store: they hold no state that the parts above share.
