# Verified models of the cache shard, its refresh protocol, the one-shot slots, the histogram and the log roller

A Dafny model of these parts of the repository, each proved against what its code and documentation promise.

* **The cache shard** (`Residents`, `Slabs`, `SlabRuns`, `SlabLimit`, `S3Model`, `S3Fifo`, `Sketches`, `TinyModel`,
  `Allotting`, `TinyLfu`, `Policies`, `ReadRings`, `RingRace`, `LazyReads`, `Reads`, `Builtins`, `ShardState`,
  `ShardModel`, `Expiry`, `Rearming`, `Shards`). The slab with its three intrusive lists is a class over vectors of
  links; its links are proved to represent plain sequences of slots. `HS3Fifo` and `HTinyLfu` run on it and are proved
  to do, call by call, what `S3Model` and `TinyModel` do to plain sequences; termination, conservation and tightness of
  eviction are proved of those. `ShardMap` then keeps its table, its policy's nodes, its running cost and its TTL timers
  in agreement through every operation, for an arbitrary hash function, so with colliding keys. `Valid` is that
  agreement; each operation requires and re-establishes it. `ShardModel` has the shard and its policy as one value:
  every operation of `ShardMap` is proved to do to it what a function of that value does, and reads that wait in the
  ring are proved to make no difference.
* **The key-based policies** that the slab forms are documented to follow. S3-FIFO (`KeyedModel`, `KeyedS3`, `Lockstep`,
  `HashedLockstep`) forgets keys lazily and tells stale queue entries by their stamps; it is proved against the same
  `S3Model`, and the two forms are compared on every run. W-TinyLFU (`KeyedTiny`, `TinyLockstep`) is compared with the
  slab form operation by operation and on every run.
* **The refresh queue and the load future** (`RefreshQueue`, `RefreshOrder`, `RefreshProgress`, `LoadFuture`,
  `LoadProgress`). Transition systems with one step per atomic operation and any number of threads; theorems are about
  every state of every run.
* **The pooled and the owned one-shot slots** (`FreeList`, `PooledSlot`, `PooledCalls`, `Pool`, `OwnedSlot`,
  `OwnedCalls`). Likewise; `Pool` puts the free list and its slots together and proves what each assumes of the other.
* **The histogram** (`Buckets`, `Histograms`). A histogram *represents* a sequence of samples; it is canonical, merging
  is the union of samples, and quantiles are compared with the exact order statistics.
* **The log roller** (`Rolling`, `Rollers`). What is on disk is compared with all that was ever written.

Where the code differs from what one would expect of it, the model follows the code:

* A stale entry in its grace period is swept when it is idle, although a load-through read would still serve it
  (`Expiry.StaleEntriesAreSweptWhenIdle`: if and only if it is idle; `Expiry.IdleStaleEntryIsSwept` gives an entry).
* The read-side idle test adds with wrap-around and the sweep saturates, and the sweep takes an idle limit of 0 for
  none. `Expiry.SweepMatchesReads` says exactly when the two agree, `Expiry.TheSweepKeepsAnOverflowingLimit` gives an
  entry on which they do not; the sweep never removes what a read would serve (`Expiry.SweepSparesLiveEntries`).
* A size roll stores the period of its own clock reading even when that lies before the current period. With a clock
  that went back, later files are filed before earlier ones and retention drops the newest bytes
  (`Rolling.ABackwardClockDropsTheNewestBytes`). A clock that goes back without such a roll does no harm:
  `Rolling.InOrderExactlyWhenInStep` gives the exact condition on a run, `Rolling.AnOutOfStepWriteLosesTheTail` says
  that each such roll costs the tail of some further run, and `Rolling.TheTailIsSafeExactlyWhenHarmless` says from which
  logs every further run keeps it.
* `clear` resets the slab's generations and leaves the read ring as it is. A single-threaded run still cannot tell lazy
  reads from eager ones, because the ring is drained before the next admission (`LazyReads.LazyReadsEqualEagerReads`
  covers runs with `clear`).
* The two forms of W-TinyLFU differ on three kinds of operation, and on no others (`TinyLockstep.StepsAgreeExactly`). A
  new value that makes an entry in the window too costly for it: the key-based form brings the window back to its target
  at once, the slab form at the next admission (`TinyLockstep.WindowUpdateAgreesExactlyWhenItFits`). A read that reaches
  the policy after its entry was given another cost, which the key-based form then sets back, or has gone, the key
  having come back under a new node or not: only the key-based form then counts it
  (`TinyLockstep.ReadsAgreeExactlyWhenStillThere`). A request to evict nothing while the protected segment is over its
  capacity: only the slab form demotes (`TinyLockstep.EvictAgrees`). The two forms of S3-FIFO agree if and only if no
  two keys share a hash (`HashedLockstep`).
* The sketch's counters saturate: it never underestimates if and only if its threshold is at most 2^31
  (`Sketches.EstimateNeverUnderestimates`, `Sketches.AHighThresholdUnderestimates`).
* The slab hands out the index that stands for no slot once 2^32 - 1 slots are in use, which a run reaches
  (`SlabLimit`).
* A bucket's count saturates at 2^32 - 1, after which a rank can be answered from a later bucket than its sample's:
  exactly when at least that many samples lie below the answering bucket (`Histograms.AnswersItsBucketExactly`). No
  bucket before the answering one being at 2^32 - 1 rules that out (`Histograms.CleanBucketsAreReliable`).
* An owned slot ends a value twice in two cases. A send that finds the receiver gone returns the value and leaves it
  marked as there, so that the storage drops it again; and a receiver polled again after it received finds the mark
  still set and receives the value again, since the poll does not look at `done` as `try_recv` and the pooled poll do.
  `OwnedSlot.ValuesEndOnceExactlyWhen` says that these are the only cases, `OwnedSlot.ARefusedSendEndsTwice` and
  `OwnedSlot.APollAfterReceiptReceivesAgain` give the runs. The pooled slot has neither
  (`PooledSlot.ValuesAreTakenOnce`).
* The free list's tag is needed by `pop` only; a run in which it wraps during a pop makes a slot that is out the head of
  the list (`FreeList.AWrappedTagBreaksTheList`), and `FreeList.PopIsSoundExactlyWhenItsLinkIsCurrent` is the exact
  condition.

## Model

| member | source | states |
|---|---|---|
| `Slabs.JoinSplit` | cache/src/hpolicy.rs:84-91 | packing a node id into a word and unpacking it are inverse both ways |
| `Slabs.Slab.Alloc` | cache/src/hpolicy.rs:124-135 | takes the last free slot or a new one, in no list, under an id no resident node has; the slab stays well formed |
| `Slabs.Slab.Release` | cache/src/hpolicy.rs:137-143 | the slot is free, its generation one on (mod 2^32), its id no longer resident, everything else as it was |
| `Slabs.Slab.PushFront` | cache/src/hpolicy.rs:155-170 | the slot becomes the newest of the list; both link directions and the exact cost sum are kept |
| `Slabs.Slab.Unlink` | cache/src/hpolicy.rs:172-188 | exactly that slot leaves its list, the others keep their order, links and costs stay exact |
| `Slabs.Slab.MoveFront` | cache/src/hpolicy.rs:190-195 | the slot becomes the newest of the list, including the short cut when it already is |
| `Slabs.Slab.SetCost` | cache/src/hpolicy.rs:197-201 | one cost and its list's sum change |
| `Slabs.ResolveFindsResidents` | cache/src/hpolicy.rs:145-149 | `resolve` succeeds exactly on the ids of resident nodes, and finds that node's hash, cost and list |
| `Slabs.StaleIdsStayStale` | cache/src/hpolicy.rs:137-153 | an id resolves after n releases of its slot exactly when the slot is in use and n is a multiple of 2^32 |
| `Slabs.FullSlab` | cache/src/hpolicy.rs:124-135 | live and free slots partition the slab: with none free it is no longer than the number of entries |
| `SlabLimit.RoomExactlyWhenTheSlotIsReal` | cache/src/hpolicy.rs:124-135 | a real slot is handed out if and only if one is free or fewer than 2^32 - 1 are in use |
| `SlabLimit.AFullSlabLosesTheNextEntry` | cache/src/hpolicy.rs:124-170 | a run of admissions fills the slab; the next entry gets the index for none, and the list it is pushed to reads as empty although its cost is counted |
| `SlabRuns.StepKeeps` | cache/src/hpolicy.rs:124-201 | every slab operation keeps the slab well formed and moves on only the generation of the slot it releases |
| `SlabRuns.ReleasedIdsStayDead` | cache/src/hpolicy.rs:137-153 | in every run a released id does not resolve again before 2^32 releases of its slot |
| `SlabRuns.HeldIdsStayAlive` | cache/src/hpolicy.rs:145-153 | in every run an id whose slot was not released keeps resolving to its slot |
| `S3Model.StepSpends` | cache/src/hpolicy.rs:439-463 | every turn of the eviction loop lowers 2 per small entry plus freq + 1 per main entry |
| `S3Model.EvictionTerminatesWithin` | cache/src/hpolicy.rs:514-527 | eviction takes at most 2 turns per small entry and 4 per main entry |
| `S3Model.EvictFreesEnough` | cache/src/hpolicy.rs:514-527 | it stops with the requested cost freed or both queues empty |
| `S3Model.EvictFreesItsVictims` | cache/src/hpolicy.rs:514-527 | what it freed is the sum of its victims' costs |
| `S3Model.EvictConserves` | cache/src/hpolicy.rs:514-527 | cost held plus cost freed does not change |
| `S3Model.EvictIsTight` | cache/src/hpolicy.rs:514-527 | without its last victim it would have freed less than requested |
| `S3Model.RememberKeeps` | cache/src/hpolicy.rs:417-428 | ghosts stay within the order, the order within its capacity, and the hash just remembered is a ghost |
| `S3Model.StepKeepsGhosts` | cache/src/hpolicy.rs:439-463 | an evicted small entry's hash is a ghost afterwards |
| `S3Model.ReadsCountUpToThree` | cache/src/hpolicy.rs:409-415 | each read raises a node's frequency by one until it is 3, for any number of reads, and changes nothing else |
| `S3Model.ReadsBuyVisits` | cache/src/hpolicy.rs:453-463 | over any eviction, a main entry that stood at 0 and was read k times survives exactly k visits of the main queue, and three if it was read more, and is taken at the next |
| `S3Model.TwoReadsPromote` | cache/src/hpolicy.rs:439-451 | a small entry, when its turn comes, goes on to main if and only if it was read at least twice since its admission; otherwise it is taken and remembered |
| `S3Fifo.HS3Fifo.constructor` | cache/src/hpolicy.rs:383-392 | an empty policy with its targets |
| `S3Fifo.HS3Fifo.AdmitKey` | cache/src/hpolicy.rs:483-493 | refines the model's admission: a ghost goes to main, others to small, under a new id |
| `S3Fifo.HS3Fifo.Update` | cache/src/hpolicy.rs:501-505 | refines the model's update; a stale id changes nothing |
| `S3Fifo.HS3Fifo.Touch` | cache/src/hpolicy.rs:531-541 | refines the model's read: freq up by one, at most 3 |
| `S3Fifo.HS3Fifo.Remove` | cache/src/hpolicy.rs:507-512 | refines the model's removal, one node or none |
| `S3Fifo.HS3Fifo.Remember` | cache/src/hpolicy.rs:419-428 | refines the model's ghost update |
| `S3Fifo.HS3Fifo.EvictSmall` | cache/src/hpolicy.rs:439-451 | refines one turn on the small queue, and names the node it takes |
| `S3Fifo.HS3Fifo.EvictMain` | cache/src/hpolicy.rs:453-463 | refines one turn on the main queue |
| `S3Fifo.HS3Fifo.Evict` | cache/src/hpolicy.rs:514-527 | refines the model's eviction; victims are distinct resident nodes under their own hash, enough is freed or nobody is left, tightly |
| `S3Fifo.HS3Fifo.Clear` | cache/src/hpolicy.rs:543-547 | back to the initial state |
| `KeyedModel.LiveForgotten` | cache/src/policy/s3fifo.rs:149-157 | forgetting a key's metadata drops its node from the queue's live entries, the stale entry staying behind |
| `KeyedModel.LiveUnique` | cache/src/policy/s3fifo.rs:22-25 | no key is live twice, even after a removal and a re-insert |
| `KeyedS3.S3FifoPolicy.constructor` | cache/src/policy/s3fifo.rs:46-61 | an empty policy with its targets |
| `KeyedS3.S3FifoPolicy.OnAccess` | cache/src/policy/s3fifo.rs:123-127 | does what the model's read does; a key not tracked changes nothing |
| `KeyedS3.S3FifoPolicy.OnAdmit` | cache/src/policy/s3fifo.rs:129-147 | does what the model's update or admission does, compaction included; after an admission the queues hold at most 64 entries more than twice the keys tracked |
| `KeyedS3.S3FifoPolicy.OnRemove` | cache/src/policy/s3fifo.rs:149-157 | does what the model's removal does, and keeps both cost sums exact |
| `KeyedS3.S3FifoPolicy.Compact` | cache/src/policy/s3fifo.rs:92-100 | dropping stale entries changes nothing that counts, and leaves at most 64 entries more than twice the keys tracked |
| `KeyedS3.ChoosesAlike` | cache/src/policy/s3fifo.rs:164-168 | choosing by queues that may hold stale entries finds its live entry in the queue the model chooses |
| `KeyedS3.S3FifoPolicy.Evict` | cache/src/policy/s3fifo.rs:159-193 | terminates, and names the victims and frees the cost of the model's eviction |
| `KeyedS3.TrackedIsLive` | cache/src/policy/s3fifo.rs:104-117 | the keys tracked are the keys with a live queue entry |
| `KeyedS3.WrappedStampsTellAlike` | cache/src/policy/s3fifo.rs:65-79 | 32-bit stamps tell stale entries as unbounded ones do while no entry is 2^32 stamps old |
| `KeyedS3.StampsMisleadExactlyWhen` | cache/src/policy/s3fifo.rs:92-100 | and they mislead on an entry if and only if its key was queued again in that queue a multiple of 2^32 stamps later |
| `Lockstep.EvictRenames` | cache/src/hpolicy.rs:514-527 | eviction does not depend on node ids |
| `Lockstep.StepsAgree` | cache/src/hpolicy.rs:367-369 | one operation on both forms: same state up to ids, same victims, same cost freed |
| `Lockstep.TheFormsDecideAlike` | cache/src/hpolicy.rs:367-369 | on every run of reads, inserts, updates, removals, evictions and clears both forms hold the same keys, queues, frequencies and ghosts, and name the same victims |
| `HashedLockstep.TheFormsDecideAlikeByHash` | cache/src/hpolicy.rs:367-369 | the same for a shard that drives the slab form by its table and by hashes, while no two keys share a hash |
| `HashedLockstep.ASharedHashTellsThemApart` | cache/src/hpolicy.rs:417-428 | for any two keys that do share one, any target and any ghost capacity, there is a run on which the forms differ |
| `Sketches.Sketch.Increment` | cache/src/hpolicy.rs:574-588 | one cell per row up, all halved at the threshold |
| `Sketches.Sketch.Estimate` | cache/src/hpolicy.rs:590-592 | the least of the hash's cells |
| `Sketches.CountersStayBounded` | cache/src/hpolicy.rs:574-588 | after any increments a counter is at most the threshold plus the increments since the last halving, below twice the threshold |
| `Sketches.CellsCountTheirUsers` | cache/src/hpolicy.rs:574-588 | a cell is exactly the aged 32-bit count of the hashes that use it |
| `Sketches.EstimateIsAtLeastTheCounter` | cache/src/hpolicy.rs:553-592 | for every threshold, the estimate is at least what a counter of the hash's own would hold, and equal to it when some row keeps the hash apart |
| `Sketches.EstimateNeverUnderestimates` | cache/src/hpolicy.rs:553-592 | up to a threshold of 2^31 it is at least the hash's own aged count |
| `Sketches.AHighThresholdUnderestimates` | cache/src/hpolicy.rs:574-592 | beyond that there is a history that every such sketch underestimates |
| `TinyModel.SettleFits` | cache/src/hpolicy.rs:280-301 | admission always ends with the window within its target |
| `TinyModel.RoomForAll` | cache/src/hpolicy.rs:286-290 | while the main queues have room for everything, admission rejects nobody |
| `TinyModel.TrimFrees` | cache/src/hpolicy.rs:308-316 | trimming a queue frees enough or empties it, frees what its victims cost, and leaves the other queues |
| `TinyModel.EvictFrees` | cache/src/hpolicy.rs:305-318 | eviction frees enough or leaves only the window, which it never touches |
| `TinyLfu.HTinyLfu.Maintain` | cache/src/hpolicy.rs:239-248 | refines the demotion of the oldest protected entries |
| `TinyLfu.HTinyLfu.TouchSlot` | cache/src/hpolicy.rs:250-260 | refines a read of a resident entry, by list |
| `TinyLfu.HTinyLfu.TouchNode` | cache/src/hpolicy.rs:262-267 | refines a read by id; a stale id changes nothing, the sketch included |
| `TinyLfu.HTinyLfu.AdmitOne` | cache/src/hpolicy.rs:281-300 | refines one duel: into probation or out, the node taken named |
| `TinyLfu.HTinyLfu.AdmitKey` | cache/src/hpolicy.rs:275-303 | refines admission; victims are distinct resident nodes, the new one possibly among them, the window fits, and free slots and generations change by one allocation and the victims' releases in order |
| `TinyLfu.HTinyLfu.TrimList` | cache/src/hpolicy.rs:308-316 | refines the trimming of one queue, tightly, slots released in order |
| `TinyLfu.HTinyLfu.EvictNodes` | cache/src/hpolicy.rs:305-318 | refines eviction: probation, then protected, tightly; free slots and generations change by the victims' releases in order |
| `TinyLfu.HTinyLfu.Update` | cache/src/hpolicy.rs:326-332 | refines a change of cost followed by a read; hands out and takes back no id |
| `TinyLfu.HTinyLfu.Remove` | cache/src/hpolicy.rs:334-339 | refines removal, one node or none, whose slot is then the last freed, one generation on |
| `TinyLfu.HTinyLfu.ApplyReads` | cache/src/hpolicy.rs:345-355 | applies the ring's reads in order and empties it |
| `TinyLfu.HTinyLfu.Clear` | cache/src/hpolicy.rs:361-364 | empty queues and a zero sketch |
| `TinyLockstep.CountsAlike` | cache/src/policy/tinylfu.rs:205-213 | up to a threshold of 2^31 the key-based sketch counts as the slab form's does |
| `TinyLockstep.DemoteAgrees` | cache/src/policy/slru.rs:29-37 | both forms demote the same entries |
| `TinyLockstep.AccessAgrees` | cache/src/policy/tinylfu.rs:81-89 | a read of a resident key does the same to both |
| `TinyLockstep.MainUpdateAgrees` | cache/src/policy/tinylfu.rs:91-98 | so does a new value for a key in the main segments |
| `TinyLockstep.WindowUpdateAgrees` | cache/src/policy/tinylfu.rs:100-136 | a new value for a key in the window does what the slab form does, followed by an admission's loop |
| `TinyLockstep.WindowUpdateAgreesExactlyWhenItFits` | cache/src/policy/tinylfu.rs:100-136 | so there the two agree if and only if the window stays within its target |
| `TinyLockstep.ManageAgrees` | cache/src/policy/tinylfu.rs:103-130 | the admission loops take the same turns and reject the same keys |
| `TinyLockstep.NewAgrees` | cache/src/policy/tinylfu.rs:91-137 | an admission of a new key does the same to both |
| `TinyLockstep.RemoveAgrees` | cache/src/policy/tinylfu.rs:139-148 | so does a removal |
| `TinyLockstep.EvictAgrees` | cache/src/policy/slru.rs:74-102 | so does an eviction (same victims in the same order, same cost) if and only if it asks for something or the protected segment is within its capacity |
| `TinyLockstep.TheFormsDecideAlike` | cache/src/hpolicy.rs:215-216 | on every run of such operations both forms hold the same keys in the same order, count alike and name the same victims |
| `TinyLockstep.ALateReadIsCountedByKey` | cache/src/policy/tinylfu.rs:81-89 | a read by an id that no longer stands for a node is counted by the key-based form only, also when its key has come back |
| `TinyLockstep.ReadsAgreeExactlyWhenStillThere` | cache/src/policy/tinylfu.rs:81-89 | a read does the same to both forms if and only if the entry read is still there at the cost it was read at |
| `TinyLockstep.StepsAgreeExactly` | cache/src/hpolicy.rs:215-216 | one operation of any kind leaves both forms in the same state, with the same victims and cost freed, if and only if it is a read of an entry still there at that cost, an update that leaves the window within its target, an eviction as above, or an admission, removal or clear |
| `TinyLockstep.AWindowUpdateTellsThemApart` | cache/src/policy/tinylfu.rs:100-136 | an update on which the forms differ |
| `ReadRings.ReadRing.Push` | cache/src/hpolicy.rs:56-70 | records the read unless the ring is full, and says so |
| `ReadRings.ReadRing.Drain` | cache/src/hpolicy.rs:72-80 | hands over exactly the reads recorded, in order |
| `RingRace.RacingReadsAreKept` | cache/src/hpolicy.rs:49-81 | with any number of threads pushing at once, a drain hands over exactly the reads that got a slot, in that order |
| `RingRace.RefusedOnlyWhenFull` | cache/src/hpolicy.rs:56-70 | a push is turned away only when every slot is taken |
| `Reads.ReadNode` | cache/src/store.rs:604-615 | a read through the ring, or through the deferred path when it is full, is one lazy step of the model |
| `LazyReads.LazyReadsEqualEagerReads` | cache/src/hpolicy.rs:345-359 | after every run of reads, writes and clears, applying the ring gives the policy that applied each read at once: queues, sketch, and the slots and generations that ids come from |
| `Builtins.WeightOfSlab` | cache/src/hpolicy.rs:155-201 | the nodes' costs sum to the costs of the three lists |
| `Builtins.Admit` | cache/src/hpolicy.rs:630-636 | either policy's admission as a shard sees it: the policy's own decision, a fresh node, named victims, none while there is room, the window within target |
| `Builtins.Evict` | cache/src/hpolicy.rs:651-657 | either policy's eviction as a shard sees it: the policy's own decision; enough is freed, or only what eviction cannot reach is left |
| `Builtins.ApplyReads` | cache/src/hpolicy.rs:658-664 | TinyLFU ends up as if each read in the ring had been applied, in order, and the ring is empty; S3-FIFO is as it was |
| `ShardState.TakeKeeps` | cache/src/store.rs:338-358 | taking an entry out keeps table, nodes, cost and timers in agreement |
| `ShardState.ReplaceKeeps` | cache/src/store.rs:513-519 | so does putting an entry over another under the same node, the old timer left over |
| `ShardState.PutFreshKeeps` | cache/src/store.rs:520-525 | so does putting in a new entry under a new node |
| `Shards.ShardMap.TakeVictim` | cache/src/store.rs:351-358 | a victim the policy names is always found, by hash and node, among colliding keys |
| `Shards.ShardMap.TakeVictims` | cache/src/store.rs:532-536 | exactly the named entries leave, and the cost falls by what they cost |
| `Shards.ShardMap.Arm` | cache/src/store.rs:360-366 | a timer is armed exactly for an entry with a deadline |
| `Shards.ShardMap.EvictExcess` | cache/src/store.rs:537-545 | evicts to the budget or to what eviction cannot reach; if anything went, one of the entries that went would not have fitted |
| `Shards.ShardMap.Insert` | cache/src/store.rs:454-548 | keeps `Valid`; leaves the entries, timers and policy that an insert leaves on a shard to which every read in the ring was applied when it was made, and the ring empty; returns the entry replaced; cost is within budget but for TinyLFU's window, and within budget for a fresh key if the window's target is; no eviction in vain while admission has room |
| `Shards.ShardMap.RemoveEntry` | cache/src/store.rs:571-580 | exactly that key leaves, its timer and node with it, after the reads in the ring were applied, and is returned |
| `Shards.ShardMap.Clear` | cache/src/store.rs:582-592 | nothing is left, no timer armed, the policy as it was created, the ring as it was |
| `Shards.ShardMap.ReplaceAll` | cache/src/store.rs:624-631 | restoring is a clear and then the inserts in order, which the reads still in the ring do not affect; it keeps `Valid` and the capacity; what is resident is the last entry given for its key |
| `Shards.ShardMap.RemoveExpired` | cache/src/store.rs:420-430 | of one hash, exactly the entries past a limit go and are reported with it |
| `Shards.ShardMap.RemoveExpiredHashes` | cache/src/store.rs:411-418 | the same for a list of hashes, repeats included: after the reads in the ring, the policy forgets exactly those entries in the order reported |
| `Shards.ShardMap.Rearm` | cache/src/store.rs:386-392 | an entry whose timer fired early is armed again; nobody of the hash waits more than firings are left |
| `Shards.ShardMap.ExpireDue` | cache/src/store.rs:376-395 | whichever timers fire and however early, the entries of their hashes past a limit go, the rest stay, every deadline has one armed timer again, and the policy, reads applied first, forgets exactly the entries that went |
| `Shards.ShardMap.ExpireAll` | cache/src/store.rs:398-402 | removes exactly the entries past a limit, reports each once, and has the policy forget them after the reads in the ring |
| `Shards.ShardMap.ReadEntry` | cache/src/handles/sync.rs:521-541 | a hit goes to the ring, or is applied after what is in it when that is full, or at once under S3-FIFO; with an idle limit the entry is used now; a miss changes nothing |
| `ShardModel.ReadsCountFromWhenTheyAreMade` | cache/src/store.rs:594-615 | on every run of reads, inserts, removals, sweeps, restores and clears, a shard that logs its reads is, once they are applied, the shard that applied each when it was made: same entries, nodes, queues, sketch, frequencies and ghosts |
| `Rearming.AdvanceKeeps` | cache/src/store.rs:377 | after the wheel advances, each hash has no more waiting entries than it fired timers |
| `Rearming.RearmCovers` | cache/src/store.rs:386-392 | arming one waiting entry uses up one firing |
| `Expiry.SweepSparesLiveEntries` | cache/src/store.rs:217-229 | a sweep removes nothing that a read at that time would still serve |
| `Expiry.SweepMatchesReads` | cache/src/entry.rs:153-170 | without grace, sweep and read agree on an entry if and only if it is past its TTL or its idle limit neither overflows nor is 0, or the clock is where that makes no difference |
| `Expiry.TheSweepKeepsAnOverflowingLimit` | cache/src/entry.rs:161-167 | an entry that a read calls expired and the sweep keeps |
| `Expiry.StaleEntriesAreSweptWhenIdle` | cache/src/handles/sync.rs:612-616 | an entry that a load-through read serves stale is swept if and only if it is idle |
| `Expiry.IdleStaleEntryIsSwept` | cache/src/store.rs:217-229 | such an entry |
| `Expiry.SweptForWhatEndedIt` | cache/src/store.rs:217-229 | a sweep removes an entry if and only if it is past its TTL and grace or past its idle limit, a limit beyond the last instant being that instant, and reports the TTL if and only if it is past that |
| `Expiry.LiveStaleOrSwept` | cache/src/handles/sync.rs:612-616 | where no limit overflows, an entry that is not idle is live before its deadline, served stale until its grace ends, and swept from there on |
| `RefreshQueue.StepKeeps` | cache/src/shared.rs:243-294 | every atomic step of every thread keeps `waiting`, `running` and `pumping` equal to what the threads have done, `running` within the limit, and startable work attended |
| `RefreshQueue.NoRefreshIsStranded` | cache/src/shared.rs:243-294 | in every run, a queued load with a free slot has a thread inside; at rest the queue is empty or every slot holds a load |
| `RefreshQueue.SlotsAreRespected` | cache/src/shared.rs:41-47 | never more loads than the limit, one pump at a time, each load run by one claimer |
| `RefreshProgress.ActSpends` | cache/src/shared.rs:259-294 | every operation of an activity lowers a budget made of the loads queued, what each activity has left to contribute, and how far each is from its next contribution |
| `RefreshProgress.ActivitiesComeToRest` | cache/src/shared.rs:243-294 | from any point of any run, unless loads are sent or end, the activities perform a bounded number of operations, after which all have returned and the queue is empty or every slot holds a load |
| `RefreshOrder.RefreshesStartInOrder` | cache/src/shared.rs:22-33 | first in, first out: what was started is a part of what was sent, in that order, and what waits is the rest |
| `RefreshOrder.NoLoadIsDropped` | cache/src/shared.rs:243-294 | in every run each load sent is waiting, in hand, started by the pump, or was claimed by another caller, and once all have returned one of the other three |
| `LoadFuture.StepKeeps` | cache/src/loader.rs:90-156 | every step of the runner and of any number of pollers keeps the lock, the waiters and the drop noticed |
| `LoadFuture.OutcomeIsFinal` | cache/src/loader.rs:44-50 | in every run a terminal state never changes |
| `LoadFuture.OutcomeIsTheLoaders` | cache/src/loader.rs:44-124 | in every run the outcome is the value or the panic that the loader ended with, or the load was dropped; and every answer a poller got is the outcome |
| `LoadFuture.DroppedLoadsStrandNobody` | cache/src/loader.rs:98-156 | in every run a dropped, still computing load has someone about to find out; at rest every poller has the outcome for its answer, which is what the loader ended with unless the load was dropped |
| `LoadProgress.StepsAreBounded` | cache/src/loader.rs:90-156 | without new pollers, a run takes at most 6 steps for the runner and 10 for each poller, retries for the lock aside |
| `LoadProgress.SomethingMoves` | cache/src/loader.rs:134-156 | until everybody is through, a step that is no retry can be taken, or a poller that was called for finds the lock free |
| `FreeList.FreeListStaysSound` | channels/benches/oneshot.rs:700-773 | in every run the list is finite and without repeats, and partitions the pool with the slots handed out |
| `FreeList.NoIndexIsHandedOutTwice` | channels/benches/oneshot.rs:739-756 | a successful pop takes a slot nobody has and installs its current next link |
| `FreeList.EmptyExactlyWhenAllAreOut` | channels/benches/oneshot.rs:739-756 | a pop answers that there is no slot if and only if every slot is out at its load |
| `FreeList.FailuresMeanProgress` | channels/benches/oneshot.rs:739-772 | an exchange of a pop or push that is tried succeeds unless another has since its load, and then hands out or takes back its slot |
| `FreeList.PopIsSoundExactlyWhenItsLinkIsCurrent` | channels/benches/oneshot.rs:746-753 | the exchange of a pop keeps the list sound if and only if the link it read is still the head's |
| `FreeList.PushKeeps` | channels/benches/oneshot.rs:758-772 | the exchange of a push is sound whatever the tag |
| `FreeList.AWrappedTagBreaksTheList` | channels/benches/oneshot.rs:746-753 | a run of three slots reaches a state in which the tag has wrapped during a pop, whose exchange then makes a slot that is out the head |
| `PooledSlot.StepKeeps` | channels/benches/oneshot.rs:200-284 | every step of sender, receiver, stale waker and recycler keeps the slot's invariant, life after life |
| `PooledSlot.ValuesEndExactlyOnce` | channels/benches/oneshot.rs:200-271 | the step that receives, returns or drops a value finds it in the cell, is the only one to end it, and ends it as its side says; no life ends with a value in the cell |
| `PooledSlot.ValuesAreTakenOnce` | channels/benches/oneshot.rs:200-271 | counted over a run: a life takes one value out of the cell if one was sent and has ended, and never two |
| `PooledSlot.OneSidePushesAfterBothExit` | channels/benches/oneshot.rs:784-883 | one handle pushes the slot back, once, after both have exited |
| `PooledSlot.NoWakeIsLost` | channels/benches/oneshot.rs:200-254 | a parked receiver whose sender sent or closed has its wake delivered or owed, also when a sender of an earlier life took its waker |
| `PooledCalls.CallsAnswerWhatTheyLoaded` | channels/benches/oneshot.rs:125-254 | in every run a poll or try_recv answers by what it loaded last: with a value there it received it, with none and the sender gone it reports the end, with neither, and only then, that there is nothing yet |
| `PooledCalls.RefusedSendsGiveBack` | channels/benches/oneshot.rs:200-214 | in every run a send that found the receiver gone gives its value back, and no other does |
| `Pool.StepKeeps` | channels/benches/oneshot.rs:708-883 | every step of any slot, handle, popper or pusher keeps the pool's slots and its list in agreement |
| `Pool.ThePoolComposes` | channels/benches/oneshot.rs:719-773 | in every run a slot is pushed while it is out and by nobody else at the time, and handed out again only when both handles of its last life have exited and it is clear |
| `Pool.SlotsAreSomewhere` | channels/benches/oneshot.rs:708-773 | in every run a slot is in the list exactly when its last life is over and nobody has popped it |
| `OwnedSlot.StepKeeps` | channels/benches/oneshot.rs:146-194 | every step of the two handles keeps the exit, seal and value bits and the waker in agreement with what they have done |
| `OwnedSlot.StorageIsFreedOnce` | channels/benches/oneshot.rs:538-644 | the storage is freed once, after which neither side has a step left |
| `OwnedSlot.SealsComeWhenExpected` | channels/benches/oneshot.rs:286-327 | the receiver expects a seal exactly when one was set or will be |
| `OwnedSlot.SpinningEnds` | channels/benches/oneshot.rs:286-291 | a spinning receiver gets its seal within two steps of the sender |
| `OwnedSlot.ValuesEndOnceExactlyWhen` | channels/benches/oneshot.rs:146-337 | in every run a value sent is received, returned or dropped by the time the storage is gone, and exactly once if and only if its send was not refused and it was not received again |
| `OwnedSlot.RefusedWhenGone` | channels/benches/oneshot.rs:152-158 | a send is refused if and only if the receiver has closed |
| `OwnedSlot.ReceivedOnceUnlessPolledAgain` | channels/benches/oneshot.rs:651-676 | a receiver that is not polled again after it received receives once |
| `OwnedSlot.ARefusedSendEndsTwice` | channels/benches/oneshot.rs:152-158 | a run in which a value is returned by its refused send and dropped with the storage |
| `OwnedSlot.APollAfterReceiptReceivesAgain` | channels/benches/oneshot.rs:654-676 | a run in which a receiver polled again receives the value again |
| `OwnedSlot.NoWakeIsLost` | channels/benches/oneshot.rs:146-181 | a parked receiver whose sender sent or closed was woken, or the sender's next step wakes it |
| `OwnedCalls.CallsAnswerWhatTheyLoaded` | channels/benches/oneshot.rs:125-135 | the receive calls answer by what they loaded last, as in the pooled slot |
| `Buckets.BucketsPartitionValues` | stats/src/histogram.rs:18-43 | a value lies within the bounds of a produced index if and only if it has that index |
| `Buckets.IndexIsMonotone` | stats/src/histogram.rs:18-25 | larger values have no smaller index |
| `Buckets.MidpointIsClose` | stats/src/histogram.rs:1-6 | a bucket's midpoint is within a sixteenth of every value in it |
| `Buckets.IndexFits` | stats/src/histogram.rs:18-25 | no 64-bit value has an index above 511 |
| `Histograms.Histogram.constructor` | stats/src/histogram.rs:56-58 | represents no samples |
| `Histograms.Histogram.AddNs` | stats/src/histogram.rs:65-80 | represents one sample more: count, saturated sum, extremes, sorted exact buckets |
| `Histograms.Histogram.Merge` | stats/src/histogram.rs:83-101 | represents both sequences of samples, saturation and empty sides included |
| `Histograms.BinarySearch` | stats/src/histogram.rs:76-79 | finds the index or where it belongs |
| `Histograms.Bump` | stats/src/histogram.rs:76-79 | adds to one bucket, saturating, keeping the others and the order |
| `Histograms.MergeBuckets` | stats/src/histogram.rs:95-100 | adds every bucket of the other histogram |
| `Histograms.HistogramsAreCanonical` | stats/src/histogram.rs:46-53 | histograms of the same multiset of samples are equal, however they came about |
| `Histograms.MergeIsAHomomorphism` | stats/src/histogram.rs:82-101 | merging commutes and associates |
| `Histograms.AnswersItsBucketExactly` | stats/src/histogram.rs:143-151 | the bucket that reaches rank r is the bucket of the r-th smallest sample if and only if fewer than r samples lie below it, saturated or not |
| `Histograms.RunsThroughExactly` | stats/src/histogram.rs:143-152 | when none reaches it, the largest sample is of that bucket if and only if fewer than r samples lie below the last bucket |
| `Histograms.CleanBucketsAreReliable` | stats/src/histogram.rs:143-152 | so the answer is right whenever no bucket before the answering one stands at 2^32 - 1 |
| `Histograms.Histogram.Quantile` | stats/src/histogram.rs:134-153 | none exactly when empty; between the extremes; exact for the last sample; within a sixteenth of the r-th smallest sample whenever fewer than r samples lie below the answering bucket |
| `Histograms.Histogram.QuantileOf` | stats/src/histogram.rs:134-153 | the same for the rank of a quantile q: the least number of samples, at least one, that makes up the share q, with q brought into [0, 1]; over the reals |
| `Histograms.RankIsTheLeast` | stats/src/histogram.rs:138-139 | `max(ceil(q * count), 1)` is that rank, and no other number is |
| `Histograms.TheRankDividesTheSamples` | stats/src/histogram.rs:132-139 | at least the share q of the samples are no larger than the one of that rank, and fewer are smaller, unless it is the first |
| `Histograms.ASaturatedBucketMisleads` | stats/src/histogram.rs:143-152 | a histogram with a saturated bucket in which that condition fails, and the largest sample is returned for a rank among the smallest |
| `Rolling.PeriodsAreNamed` | logging/src/roller.rs:309-330 | a period reads back from its file name, and periods follow the clock |
| `Rolling.PeriodsAreWholeUnits` | logging/src/roller.rs:309-330 | a period is the minute, the hour or the day that the clock is in, or the one period from 0 on |
| `Rolling.NamesAreWholeUnits` | logging/src/config/processed.rs:83-91 | a rolled file's name tells the minute, the hour or the day |
| `Rolling.TargetIsUnused` | logging/src/roller.rs:152-176 | a file is never rolled onto an existing one, whatever the clock did |
| `Rolling.TargetIsNewest` | logging/src/roller.rs:152-176 | in a sound log the file rolled is newer than every other |
| `Rolling.CleaningKeepsTheNewest` | logging/src/roller.rs:246-288 | clean-up keeps a suffix of the bytes, all of them without a limit |
| `Rolling.RollKeepsSoundness` | logging/src/roller.rs:137-194 | a roll keeps the log in order if and only if it does not move the period back, or keeps no file |
| `Rolling.WriteKeepsTheTail` | logging/src/roller.rs:332-349 | a write loses nothing but to retention, rolls a full file, and keeps the log in order if and only if it does not roll with a clock behind the period, or no file is kept |
| `Rolling.RollingKeepsTheTail` | logging/src/roller.rs:332-349 | in every run in which no write rolls with a clock behind the period, rolled files in order and the active file are a suffix of all bytes written, all of them without a limit |
| `Rolling.InOrderExactlyWhenInStep` | logging/src/roller.rs:332-349 | those are exactly the runs that keep the log in order throughout |
| `Rolling.ForwardClocksStayInStep` | logging/src/roller.rs:332-349 | every run with a clock that does not go back is one of them |
| `Rolling.TheTailIsSafeExactlyWhenHarmless` | logging/src/roller.rs:137-349 | every further run with a clock that does not go back keeps the tail if and only if no file of a later period that clean-up would keep holds a byte, or nothing is ever rolled |
| `Rolling.AnOutOfStepWriteLosesTheTail` | logging/src/roller.rs:332-349 | a write that rolls with a clock behind the period leads to a log from which some further writes, on a clock that does not go back, lose the tail |
| `Rolling.ABackwardClockDropsTheNewestBytes` | logging/src/roller.rs:335-344 | a run in which the clock goes back and the newest bytes are dropped |
| `Rollers.ListingIsUnique` | logging/src/roller.rs:32-41 | a directory has one listing, newest first |
| `Rollers.Sort` | logging/src/roller.rs:32-41 | newest first, the same files |
| `Rollers.LastUsed` | logging/src/roller.rs:158-166 | the highest sequence of the period, 0 without one |
| `Rollers.Roller.FindRolledFiles` | logging/src/roller.rs:197-243 | lists the directory newest first |
| `Rollers.Roller.Cleanup` | logging/src/roller.rs:246-288 | the directory becomes what the model's clean-up leaves |
| `Rollers.Roller.Roll` | logging/src/roller.rs:137-194 | refines the model's roll; the rename's target is not in the directory |
| `Rollers.Roller.WriteInternal` | logging/src/roller.rs:332-349 | refines the model's write |

## Left out

- Slabs.Slab.Alloc: asks for a slot index below 2^32 - 1, which the code takes for granted; so do `S3Fifo.HS3Fifo.AdmitKey`, `TinyLfu.HTinyLfu.AdmitKey`, `Builtins.Admit`, and, of the number of entries, `Shards.ShardMap.Insert` and `Shards.ShardMap.ReplaceAll`. `SlabLimit` has the exact condition and what happens beyond it.
- S3Fifo.HS3Fifo.AdmitKey: see `Slabs.Slab.Alloc`.
- TinyLfu.HTinyLfu.AdmitKey: see `Slabs.Slab.Alloc`.
- Builtins.Admit: see `Slabs.Slab.Alloc`.
- Shards.ShardMap.Insert: see `Slabs.Slab.Alloc`.
- Shards.ShardMap.ReplaceAll: see `Slabs.Slab.Alloc`.
- ReadRings.ReadRing.Push: one thread at a time; `RingRace` has many.
- ReadRings.ReadRing.Drain: one thread at a time; `RingRace` has many.
- LazyReads.LazyReadsEqualEagerReads: for runs in which the slab never holds more than 2^32 - 1 slots, one thread at a time.
- Shards.ShardMap.ReadEntry: one thread at a time, so a read that found the ring full is applied at once; whether an entry found is still to be served is decided by the handles.
- ShardModel.ReadsCountFromWhenTheyAreMade: one thread at a time; `RingRace` has the ring's race.
- KeyedModel.LiveUnique: stamps are unbounded; `KeyedS3.WrappedStampsTellAlike` says how long 32-bit ones do as well.
- KeyedS3.S3FifoPolicy.Evict: stamps are unbounded, see `KeyedS3.WrappedStampsTellAlike`; the policy's mutex is held throughout.
- Lockstep.TheFormsDecideAlike: keys stand for their hashes; `HashedLockstep.TheFormsDecideAlikeByHash` has both.
- TinyLockstep.TheFormsDecideAlike: for thresholds from 2 to 2^31 (the code's are at least 100); keys stand for the hashes that both sketches index by; the key-based form's lists are sequences, not arenas of links.
- Histograms.Histogram.Quantile: accuracy is stated where fewer samples than the rank lie below the answering bucket; `Histograms.AnswersItsBucketExactly` shows that the answer is of another bucket otherwise.
- Histograms.Histogram.QuantileOf: the rank is computed without the rounding of floats.
- Rolling.RollingKeepsTheTail: starts from a directory whose files are not of a later period than the clock, as an earlier run with the same granularity leaves it.
- FreeList.FreeListStaysSound: the head's tag does not wrap within one pop.
- FreeList.NoIndexIsHandedOutTwice: the head's tag does not wrap within one pop.
- Pool.ThePoolComposes: the head's tag does not wrap within one pop.
- Integer widths of costs, counts and sequence numbers: natural numbers that do not overflow.
- Floating-point rounding of TinyLFU's targets, and the hash mixing behind the sketch's index: parameters.
- The timer wheel's inside: a set of armed handles, of which any may fire at any time.
- The hash table's inside: a map from keys to entries with an arbitrary hash function.
- The other key-based policies, `insert_policy`, user policies, and what depends on them.
- Metrics, cost deltas and eviction notifications.
- Weak memory orders: atomics are sequentially consistent steps.
- The inside of the atomic waker: register, take and wake are single steps, and a wake taken is delivered later.
- Blocking waiters of a load future, and pollers that are cancelled.
- The sharded store, the handles, the janitor and the loaders themselves.
- Files, names and gzip: a file is keyed by its period and sequence, compression keeps its content, and I/O succeeds.
