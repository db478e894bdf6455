# placitum-ip in Dafny

This project models the hard parts of the IP inspector and proves what they are relied on for:

- **Addresses and tables** (`Bits`, `Netip`, `Netset`): CIDR prefixes, the sorted interval table, its binary search, and the way
  back from an interval to a prefix.
- **The live-set mirror** (`Composition`, `Wafs`, `Mirror`, `MirrorSafety`, `MirrorCatchUp`, `MirrorProgress`, `MirrorSet`, `Mirrors`):
  the prefix index with its counters and its XOR hash, the WAFS object layout, and the replication protocol that follows a keeper
  through frames, packages and snapshots: that a mirror is never wrong, and that it gets on.
- **The worker pool** (`Queue`, `PoolRun`, `PoolWake`, `PoolAccount`, `PoolVerdicts`): the deadline queue filtered in place, and the pool as an
  interleaving of steps over one mutex and one condition variable.
- **The decision** (`Store`, `Decide`, `DecideLaws`, `DecideAnswers`, `DecideLoaded`): the load that compiles a tree into a snapshot, the set algebra,
  allow before deny before default, and what a check can rely on.
- **The generation swap** (`Desired`, `Watch`): stage, park, promote, reload and roll back over three directories, and the watch
  that decides which pack is tried and what is reported.

Objects whose methods update fields are classes (`Composition.Index`, `MirrorSet.LiveSet`, `Mirrors.Roster`, `Queue.Slice`, `Desired.Node`,
`Watch.Watcher`); loops are methods with invariants. The mirror's protocol is written twice: once as functions on values in
`Mirror`, over which runs are reasoned about, and once as the object in `MirrorSet`, each of whose methods is proved to take exactly the
step the function describes. The pool is a step machine: each stretch of code between taking the mutex and giving it up is one step
(two where it reads the clock twice), and the environment chooses the order, the sleeper a signal wakes, the clock and the timers.

The keyed hash (SipHash-2-4) is a parameter: every theorem holds for any function of key and material, and none claims it is
free of collisions. The network, the object store, the file system's failures and the clock are inputs that may be anything
a theorem does not exclude by name.

## Where the code and its description part

- An IPv4-mapped prefix shorter than 128 bits becomes a single IPv4 address in a table. `Netset.BlockIsExact` says exactly which prefixes
  are exact.
- Two touching IPv6 intervals stay apart when the first ends inside the IPv4-mapped block (`Netset.AdjacencyMissedAtMappedTop`);
  nothing is lost or added by it. `Netset.Merge` leaves no other touching neighbours.
- A live prefix that is not masked is never found (`Composition.UnmaskedIsMissed`); the index answers for the masked ones.
- A live record whose length exceeds its family's is read without complaint. Adding such a prefix indexes the counters out of range and
  ends the program; removing one changes nothing (`Wafs.OverlongBitsAreRead`). `Wafs.ObjectRunsIff` and `Mirror.RunsIff` say exactly which
  objects can be applied, whatever the set holds. The end of the program is part of the protocol's model: its theorems hold of every run,
  whatever bytes arrive, and a run that applies such an object stays as it was.
- The documentation says a list that is still loading cannot close a route. It can, for an inverse set or an exclusion
  (`DecideLaws.LoadingListClosesRoute`, on a tree that loads). `DecideLaws.LoadingIs` says exactly when a set can drop or admit an address while its lists load,
  `DecideLaws.ClosesIff` exactly when a profile closes, `DecideLaws.OneRowCloses` reads that off the set of a one-row profile, and
  `DecideLaws.LoadingNeverCloses` gives the promise for whole profiles under a condition that can be read off the policy.
- A pool built without workers can return from `Close` with a task in its queue (`PoolAccount.AnswersAllIffWorkers`); the configuration
  refuses such a pool.
- If the staging directory cannot be emptied before a pack is written, the pack is laid over what was left there, and that is
  what goes live (`Desired.LeftoverGoesLive`). What goes live is the pack and nothing else if and only if the pack puts something
  at every path that was left (`Desired.Node.Apply`).
- A live set whose subject changes between generations keeps listening on the old one (`Mirrors.RenamedStaysBehind`). A set ends on the
  subject that is wanted if and only if it is new or was on that subject already (`Mirrors.Roster.Sync`).
- After a swap the live sets are mirrored under the names the pack writes, while the tree is read with its live names trimmed and in lower
  case. A set the pack names in capitals is never found until a restart (`Mirrors.CapitalsAreMissed`); `Mirrors.SwapMirrorsIff` says
  exactly when a swap mirrors everything the snapshot uses.
- The fingerprint of a tree lists its files and not its directories, so a tree that differs from the loaded one in directories alone is
  taken for the same (`Desired.FolderUnseen`, `Desired.Node.Reload`).

## Model

| member | source | states |
|---|---|---|
| `Netset.Uint32Conversions` | internal/netset/netset.go:229-235 | the 32-bit shifts read and write the big-endian value of four bytes, each undoing the other |
| `Netset.Uint128From16` | internal/netset/netset.go:237-244 | the two words are the big-endian values of the two halves |
| `Netset.Uint128To16` | internal/netset/netset.go:246-257 | the sixteen bytes are the big-endian bytes of both words |
| `Netset.FillHost` | internal/netset/netset.go:184-203 | filling host bits across two 64-bit words gives start + 2^host - 1 for every host length from 0 to 128 |
| `Netset.LastAddr` | internal/netset/netset.go:172-203 | the word arithmetic gives the last address of the block for both families, and the address itself for an IPv4-mapped prefix |
| `Netset.NextAddrIsSuccessor` | internal/netset/netset.go:205-227 | the next address is plus one with carry, and is missing exactly at the family's maximum |
| `Netset.MeetsWhen` | internal/netset/netset.go:162-170 | two ordered intervals meet exactly when nothing lies between them, except that adjacency is not seen after an IPv4-mapped end |
| `Netset.Merge` | internal/netset/netset.go:130-160 | same union as the input; proper, ordered, disjoint intervals; neighbours that touch do so only after an IPv4-mapped end |
| `Netset.Build` | internal/netset/netset.go:109-128 | for every list of prefixes the table holds exactly the addresses of their blocks, and both lists can be searched |
| `Netset.BlockIsExact` | internal/netset/netset.go:172-182 | a prefix's block is the CIDR block it stands for if and only if it is not an IPv4-mapped prefix shorter than 128 |
| `Netset.LocateIsScan` | internal/netset/netset.go:73-87 | binary search agrees with a linear scan, and returns the one interval that holds the address |
| `Netset.LookupIsMembership` | internal/netset/netset.go:55-71 | a lookup in a built table finds an address exactly when some block holds its unmapped form; the interval returned holds it and is covered |
| `Netset.LookupIsCidr` | internal/netset/netset.go:31-71 | without short IPv4-mapped prefixes the lookup is CIDR membership |
| `Netset.BlocksAreCidr` | internal/netset/netset.go:109-128 | without short IPv4-mapped prefixes an address is in the blocks of a list exactly when a prefix of the list covers it |
| `Netset.BlockOfIsCidr` | internal/netset/netset.go:89-107 | an interval that is the block of a prefix holds exactly the addresses the prefix covers |
| `Netset.BlockPrefixUnique` | internal/netset/netset.go:89-107 | an interval is the block of at most one prefix |
| `Netset.IntervalPrefix` | internal/netset/netset.go:89-107 | a prefix is returned exactly when the interval is one aligned block, and it is that block's |
| `Netset.AdjacencyMissedAtMappedTop` | internal/netset/netset.go:162-170 | two touching IPv6 intervals around the top of the mapped block are not seen to touch |
| `Composition.MaterialInjective` | internal/dyn/wafs.go:53-63 | distinct prefixes of lengths their families have get distinct hash material |
| `Composition.FoldAnyOrder` | internal/dyn/dyn.go:116-134 | the XOR of the digests of a set of prefixes is the same in every order of listing them |
| `Composition.Index.constructor` | internal/dyn/dyn.go:104-106 | an empty index is consistent under any key |
| `Composition.Index.Apply` | internal/dyn/dyn.go:116-134 | for every record: after an add its prefix is stored with its expiry, new or not; after any other record it is not stored; every other prefix is as it was; counters and hash stay in agreement with the map (each counter is the number of stored prefixes of that family and length, the hash is the XOR over the stored prefixes); and it fails exactly where the counters have no place |
| `Composition.Index.ApplyAll` | internal/dyn/dyn.go:540-544 | any sequence of records runs to its end exactly when every prefix it adds has a length of its family, and then gives the map that replaying it gives |
| `Composition.RunsToEnd` | internal/dyn/dyn.go:116-134 | from any map of valid prefixes a record list runs without an index out of range if and only if every prefix it adds has a length of its family |
| `Composition.LastWriterWins` | internal/dyn/dyn.go:116-134 | after any list of records a prefix is stored if and only if the last record naming it is an add, with that record's expiry; a prefix no record names is as it was |
| `Composition.Index.Contains` | internal/dyn/dyn.go:136-154 | the length-skipping probe answers exactly like a linear scan for an unexpired covering prefix of the same family, among the masked prefixes |
| `Composition.Index.Size` | internal/dyn/dyn.go:156-173 | the counters split the number of stored prefixes exactly into single addresses and wider prefixes |
| `Composition.UnmaskedIsMissed` | internal/dyn/dyn.go:136-154 | a stored unmasked prefix that covers an address is not found |
| `Wafs.RawPrefixFree` | internal/dyn/wafs.go:93-172 | no printed record begins another |
| `Wafs.ListPrefixFree` | internal/dyn/wafs.go:92-175 | a printed list of records is recovered from any bytes it begins |
| `Wafs.ReadHead` | internal/dyn/wafs.go:68-87 | the header read from its offsets is the one that prints those 52 bytes |
| `Wafs.ReadRaw` | internal/dyn/wafs.go:93-174 | at any cursor a record is read exactly when one lies there, the cursor moves past it and stays within the data |
| `Wafs.Unpack` | internal/dyn/wafs.go:65-178 | on arbitrary bytes: it succeeds exactly when a well-formed object begins the data, returns that object with exactly its counted records, and never reads past the end |
| `Wafs.InterpretIs` | internal/dyn/wafs.go:108-155 | the prefix read from a record has exactly the hash material that lies in the object, so its address is in network order; the operation is the record's, and the expiry has the record's eight bytes as a two's complement number |
| `Wafs.RecordsAre` | internal/dyn/wafs.go:93-178 | the same of every record of an object that is decoded from any bytes |
| `Wafs.RoundTrip` | internal/dyn/wafs.go:65-178 | a printed object, with anything after it, is read back |
| `Wafs.CutIsRejected` | internal/dyn/wafs.go:65-178 | every strict beginning of a printed object is rejected |
| `Wafs.OverlongBitsAreRead` | internal/dyn/wafs.go:108-129 | an IPv4 record of length 33 is read; applied to any set it ends the program if it adds, and changes nothing otherwise |
| `Wafs.ObjectRunsIff` | internal/dyn/wafs.go:108-129 | whatever a set holds, the records of an object can all be applied to it if and only if every one that adds has a length its family has |
| `Mirror.HexOfInjective` | internal/dyn/dyn.go:800-802 | distinct digests print distinctly |
| `MirrorCatchUp.VerifyComparesHashes` | internal/dyn/dyn.go:550-570 | comparing printed digests accepts exactly the set's own digest |
| `Mirror.RunsIff` | internal/dyn/dyn.go:116-134 | an object can be applied if and only if every record that adds has a length its family has |
| `Mirror.EventIsBounded` | internal/dyn/dyn.go:403-465 | one event, whatever it brings, sends at most one snapshot request, and none while the last snapshot is bad unless the frame names another epoch |
| `Mirror.ResyncIsBounded` | internal/dyn/dyn.go:433-439 | in every run, whatever arrives, snapshots installed with a wrong hash are at most one more than the frames that named another epoch |
| `MirrorSafety.AdvanceFaithful` | internal/dyn/dyn.go:520-548 | a genuine package moves a faithful set exactly one change forward and its digest agrees |
| `MirrorSafety.MirrorIsSafe` | internal/dyn/dyn.go:403-674 | under any loss, duplication and reordering of frames, any named digests, missing packages and failed reads, every ready state holds the keeper's key, prefixes, expiries and hash at its own epoch and sequence number |
| `MirrorSafety.ReadersSeeKeeper` | internal/dyn/dyn.go:529-545 | the same at every release of the lock inside every event: after each single package of a catch-up, before it is verified, a reader sees a set that is faithful whenever it is ready |
| `MirrorSafety.MirrorAnswersForKeeper` | internal/dyn/dyn.go:136-154 | in every run a ready mirror of a keeper that stores masked prefixes answers each lookup as a scan of what the keeper held at that place would |
| `MirrorSafety.GenuineNeverSpoils` | internal/dyn/dyn.go:651-662 | with genuine objects no snapshot with a wrong hash is ever installed, in any run, and no run ends the program |
| `MirrorCatchUp.WalkIsInOrder` | internal/dyn/dyn.go:474-518 | a catch-up of any set, its last snapshot good or bad, over any bytes, ends with the snapshot that was brought, or has applied consecutive packages once each, without gap or repeat and not beyond the frame |
| `MirrorCatchUp.WalkCompletes` | internal/dyn/dyn.go:467-518 | with every package present and genuine and the keeper's digest named, the catch-up ends exactly at the frame's number with the keeper's composition, without a snapshot request |
| `MirrorCatchUp.WalkArrives` | internal/dyn/dyn.go:467-518 | with every package present and genuine the catch-up arrives at the frame's number with the keeper's composition and only then compares the named digest |
| `MirrorProgress.InlineAdvances` | internal/dyn/dyn.go:453-457 | a diff one step ahead with its genuine package inside moves a faithful ready set to that place with what the keeper held there, and sends no request |
| `MirrorProgress.FrameCatchesUp` | internal/dyn/dyn.go:463-518 | a frame further ahead, or without its package, ends the set at the frame's place with what the keeper held there, and no request, where every package is there and genuine and the digest is the keeper's |
| `MirrorProgress.NotReadyAsks` | internal/dyn/dyn.go:388-422 | a set that is not ready asks for a snapshot at its start and on every frame of this version, and is ready with the keeper's key and composition once a genuine one is brought |
| `MirrorProgress.EpochTurns` | internal/dyn/dyn.go:433-439 | a ready set that meets another epoch asks for a snapshot whatever its last one was, and takes a genuine one over |
| `MirrorProgress.DivergenceResyncs` | internal/dyn/dyn.go:443-446 | a frame for the set's own place leaves it alone where the digests agree or its last snapshot was bad, and otherwise makes it ask for a snapshot and take a genuine one over |
| `MirrorProgress.GapResyncs` | internal/dyn/dyn.go:503-509 | a package that is gone makes a set ask for a snapshot and take a genuine one over |
| `MirrorProgress.MisfitResyncs` | internal/dyn/dyn.go:520-538 | an inline package that is not one for the set's next place makes it ask for a snapshot and take a genuine one over |
| `MirrorProgress.WrongPackageResyncs` | internal/dyn/dyn.go:540-570 | a package that was applied and whose digest is not the set's own afterwards makes it ask for a snapshot and take a genuine one over |
| `MirrorProgress.WrongDigestResyncs` | internal/dyn/dyn.go:511-518 | a catch-up that arrived and whose frame names another digest than the keeper's makes the set ask for a snapshot and take a genuine one over |
| `MirrorProgress.FailedReadWaits` | internal/dyn/dyn.go:467-501 | a read that fails, and a set without an object store, leave the set where it is and ask for nothing |
| `MirrorProgress.OthersAreIgnored` | internal/dyn/dyn.go:403-442 | frames of another version change nothing; nor, on a ready set, do calls to resynchronise, frames without an epoch and frames from behind |
| `MirrorProgress.InstallIs` | internal/dyn/dyn.go:651-664 | an installed snapshot leaves the set ready at the object's place and key, with a prefix stored if and only if the object's last record naming it is an add, and marked bad if and only if its hash is not the one named |
| `MirrorProgress.RunFollows` | internal/dyn/dyn.go:388-518 | every run of genuine objects that has left a set ready is continued by a frame that brings what it misses to that frame's place, with what the keeper held there |
| `MirrorCatchUp.ListingReplays` | internal/dyn/dyn.go:651-655 | a snapshot that lists a map rebuilds that map |
| `MirrorCatchUp.PublishedIsGenuine` | internal/dyn/wafs.go:65-178 | whatever a keeper prints, whole or cut short, is genuine, so the safety theorem holds of printed bytes |
| `MirrorSet.LiveSet.constructor` | internal/dyn/dyn.go:196-205 | a new set is consistent, not ready and empty |
| `MirrorSet.LiveSet.Contains` | internal/dyn/dyn.go:221-234 | a set that is not ready is a miss; a ready one answers like a scan of its masked prefixes |
| `MirrorSet.LiveSet.Snapshot` | internal/dyn/dyn.go:572-674 | the object takes the protocol's snapshot step and stays consistent |
| `MirrorSet.LiveSet.Replace` | internal/dyn/dyn.go:651-664 | where the records can be counted the composition is replaced by the snapshot's, ready whatever its hash, marked bad exactly when the hash differs; otherwise the program ends |
| `MirrorSet.LiveSet.Verify` | internal/dyn/dyn.go:550-570 | the object takes the protocol's verification step |
| `MirrorSet.LiveSet.ApplyPackage` | internal/dyn/dyn.go:520-548 | on any bytes the object takes the protocol's package step |
| `MirrorSet.LiveSet.CatchUp` | internal/dyn/dyn.go:467-518 | the batching loop terminates and takes the protocol's catch-up step |
| `MirrorSet.LiveSet.OnFrame` | internal/dyn/dyn.go:403-465 | the object takes the protocol's frame step on any bytes; and after every frame that brings a faithful ready set what it misses its fields are those of the keeper at the frame's place |
| `MirrorSet.LiveSet.Serve` | internal/dyn/dyn.go:388-401 | over any first snapshots and frames, with any bytes, the object goes through exactly the states of the protocol's run; fed genuine objects it is faithful to the keeper whenever it is ready, and it is where the keeper was after a last frame that brings what it misses |
| `Mirrors.MirroringSuffices` | internal/dyn/dyn.go:279-289 | where every live set a snapshot uses is mirrored, a check answers as if all live data were visible |
| `Mirrors.SwapMirrorsIff` | internal/desired/watch.go:181-183 | after a swap every live set the snapshot uses is mirrored if and only if each name of the pack whose normal form the policy uses is there in its normal form |
| `Mirrors.CapitalsAreMissed` | internal/store/store.go:699-703 | a pack that names a live set in capitals loads, and an address on that list is denied after the swap and allowed after a restart |
| `Mirrors.MirrorTwice` | internal/desired/watch.go:215-219 | a swap mirrors the names as the pack writes them, a restart as the load reads them |
| `Mirrors.Roster.Sync` | internal/dyn/dyn.go:310-370 | with every subscription granted the mirrored sets are exactly the wanted ones, and a set is on the wanted subject if and only if it is new or was there already; a refusal detaches nothing |
| `Mirrors.RenamedStaysBehind` | internal/dyn/dyn.go:318-321 | a set that is renamed between two generations stays on the subject it had |
| `Queue.Partition` | internal/queue/queue.go:195-220 | expiry loses and duplicates no task |
| `Queue.PartitionStable` | internal/queue/queue.go:195-220 | kept and expired tasks keep their order, each is late or not as filed |
| `Queue.Compact` | internal/queue/queue.go:195-220 | the in-place filter of the shared array leaves the kept tasks at its front and returns the expired ones, both in order |
| `Queue.Slice.Append` | internal/queue/queue.go:165-169 | the queue grows by one task at its end |
| `Queue.Slice.PopFront` | internal/queue/queue.go:287-291 | the queue gives up its first task |
| `Queue.Slice.TakeExpired` | internal/queue/queue.go:195-220 | the queue becomes its unexpired tasks in order, and the expired are returned |
| `PoolWake.WakefulNext` | internal/queue/queue.go:86-304 | every step of every goroutine keeps the wake-up invariant |
| `PoolWake.NoLostWakeup` | internal/queue/queue.go:136-169 | in every interleaving: length within depth, a submitter sleeps only while the queue is full, and with a worker a non-empty queue never meets only sleeping workers |
| `PoolWake.SignalReachesWorker` | internal/queue/queue.go:165-169 | whenever a task is enqueued while a worker sleeps, the single signal goes to a worker |
| `PoolAccount.NextWeight` | internal/queue/queue.go:86-335 | every step conserves each task: it is with its submitter, queued, with a worker, with the sweeper, or answered |
| `PoolAccount.ReachableCounters` | internal/queue/queue.go:316-333 | in every interleaving the shed and expired counters are the numbers of those answers |
| `PoolAccount.ExactlyOneAnswer` | internal/queue/queue.go:86-335 | with a worker, once `Close` and every `Submit` have returned, the queue is empty, the handler was called exactly once per task, and submitted = evaluated + shed + expired |
| `PoolAccount.NeverTwice` | internal/queue/queue.go:258-335 | at no moment has a task been answered twice |
| `PoolVerdicts.LateIff` | internal/queue/queue.go:179-186 | a task is late from the moment on when no more than the reserve and the smallest budget is left of its deadline |
| `PoolVerdicts.WorkerAnswers` | internal/queue/queue.go:268-314 | a worker evaluates the task it holds if and only if it is not late at that moment, and answers a late one as expired |
| `PoolVerdicts.WorkerTakes` | internal/queue/queue.go:280-304 | a free worker takes the first task that is not late and wakes everybody; without one it leaves a closed pool, and sleeps only where nothing was late |
| `PoolVerdicts.RoomAdmits` | internal/queue/queue.go:104-169 | an open pool with room takes the task at the end of its queue |
| `PoolVerdicts.FullTurnsAway` | internal/queue/queue.go:96-126 | at the door of a full or closed pool a task is shed exactly when the pool is open and does not wait, expires exactly when the pool is closed or the task has to wait and is late, and otherwise waits with its timer set |
| `PoolVerdicts.FullKeepsWaiting` | internal/queue/queue.go:136-162 | a waiting submitter of a full pool gives up exactly when the pool is closed or its timer has fired, and sleeps exactly when nothing in the queue is late either |
| `PoolVerdicts.EntryChecks` | internal/queue/queue.go:86-94 | a submitter whose own task is late expires it at once; otherwise it clears the late tasks out of the queue first |
| `PoolVerdicts.SubmitterAnswers` | internal/queue/queue.go:86-163 | which answer a submitter gives to its own task and to those it cleared out |
| `PoolVerdicts.SweeperTakes` | internal/queue/queue.go:242-256 | the sweeper takes exactly the late tasks out and leaves the others in order |
| `PoolVerdicts.AnswersAreRight` | internal/queue/queue.go:86-335 | in every interleaving an evaluated task was enqueued; an expired one is late, or was never enqueued because the pool closed or its timer fired; a shed one was never enqueued, in a pool that does not wait |
| `PoolVerdicts.InTimeIsEvaluated` | internal/queue/queue.go:258-335 | in every interleaving an enqueued task that is answered while it is not late was evaluated; and no answer is an expiry where the task is not late, the pool is open and the timer has not fired |
| `PoolVerdicts.CollectedAreLate` | internal/queue/queue.go:188-220 | in every interleaving every task that was taken out to be expired, by whomever, is late |
| `PoolAccount.NoWorkerLeavesTask` | internal/queue/queue.go:54-84 | every pool without workers has a run in which `Close` and every `Submit` have returned with a task in the queue |
| `PoolAccount.AnswersAllIffWorkers` | internal/queue/queue.go:54-84 | whatever its other settings, a pool leaves no task behind in any run if and only if it has a worker |
| `PoolAccount.EvaluationInOrder` | internal/queue/queue.go:280-304 | in every interleaving the tasks taken for evaluation, then those queued, are in the order they were enqueued; together with those dropped they are exactly the enqueued ones; and every dropped one is late |
| `PoolAccount.ClosedPoolDrains` | internal/queue/queue.go:233-335 | in every run from a closed state the steps that get something done number at most the rank of that state, and a constant more for each later call |
| `PoolAccount.ClosedPoolIsNotStuck` | internal/queue/queue.go:233-335 | until `Close` returns such a step is always there |
| `PoolAccount.CloseReturns` | internal/queue/queue.go:233-240 | from every reachable closed state some run of at most the rank's number of steps lets `Close` and every `Submit` return |
| `Store.FirstSourceIs` | internal/store/store.go:84-89 | the first table that holds the address answers, with its own name and the interval that holds it, and no earlier table holds it |
| `Store.LocateIsUnion` | internal/store/store.go:84-108 | a block locates an address exactly when it is in the union of its lists, systems, live sets and countries |
| `Store.ExplainIsMembership` | internal/store/store.go:137-157 | a set matches exactly when the address is in the union and not in the exclusion, inverted for an inverse set |
| `Store.CompileMatch` | internal/store/store.go:539-606 | a block compiles exactly when every name it uses is there, into one exact table per list and per system in order |
| `Store.CompileSets` | internal/store/store.go:513-537 | the sets compile exactly when every one resolves, each under its own name |
| `Store.CompileLists` | internal/store/store.go:485-511 | lists compile exactly when no dataset is both a body and a live subject, with an exact table for each body |
| `Store.CheckProfile` | internal/store/store.go:637-668 | a profile is accepted exactly when every row and outcome refers to something that is there |
| `Store.UsedLive` | internal/store/store.go:443-483 | of the declared live sets exactly those are kept that some set, row or outcome refers to |
| `Store.CompileGeo` | internal/store/store.go:757-796 | one exact table per country directory, ordered by name |
| `Store.CountryIsFirst` | internal/store/store.go:228-240 | whatever order the directories are read in, the country of an address is the first by name of those whose blocks hold it, and none exactly when none does |
| `Store.Compile` | internal/store/store.go:380-441 | a tree loads exactly when every reference resolves, no dataset is doubled and the default profile is there; the snapshot is the tree compiled |
| `Decide.AsnSurvives` | internal/decide/decide.go:296-301 | a system's number survives printing and parsing exactly when it fits 32 bits |
| `Decide.FindReason` | internal/decide/decide.go:291-317 | the public reason of a hit: the country, the system, or the one block the hit's interval is, and nothing for any other hit |
| `Decide.FindGap` | internal/decide/decide.go:228-247 | the first row whose set, country data or list is missing |
| `Decide.FirstMatch` | internal/decide/decide.go:126-166 | the loop finds the topmost row of the action whose set matches |
| `Decide.FireRows` | internal/decide/decide.go:172-194 | the effects of the side rows, which `DecideLaws.RowsAre` and `DecideLaws.RowsInOrder` characterise |
| `DecideLaws.RowsAre` | internal/decide/decide.go:172-194 | a request is sent, and a write made, exactly when some row of that kind finds the address in its dataset, or for a negated row does not |
| `DecideLaws.RowsInOrder` | internal/decide/decide.go:172-194 | rows act in their order: the effects of a list of rows are those of its first part followed by those of its second |
| `DecideLoaded.DatasetIs` | internal/store/store.go:116-128 | on a loaded snapshot a row's dataset holds an address exactly when one of its prefixes' blocks does, or for a live dataset when the live set holds it |
| `Decide.FireOutcomes` | internal/decide/decide.go:198-219 | requests and writes of the outcomes that fire, in order |
| `Decide.Check` | internal/decide/decide.go:53-226 | the answer for every snapshot, none included, every profile name, every address, parsed or not, and every state of the live sets |
| `Decide.FireOverload` | internal/decide/decide.go:480-533 | the overload outcomes that fire; writes only for an address that parses |
| `Decide.FirstHitIs` | internal/decide/decide.go:126-166 | a row is found exactly when some set of that action holds the address, and then no higher row of that action does |
| `Decide.VerdictIs` | internal/decide/decide.go:121-170 | allow if any allow set holds the address, else deny if any deny set does, else the default |
| `DecideLaws.AnswerNamesItsRow` | internal/decide/decide.go:249-289 | the marked row is the topmost matching row that decides, with its set, code and response; with no mark the default answers |
| `DecideLaws.OutcomesAre` | internal/decide/decide.go:198-219 | outcomes add the requests and writes of exactly those the event selects |
| `DecideAnswers.EffectsAre` | internal/decide/decide.go:123-217 | an answer that is no error carries exactly the requests and writes of the side rows that fire and of the outcomes for the side the address ended up on: white if an allow set holds it, black if only a deny set does, else neither |
| `DecideAnswers.RowsThenOutcomes` | internal/decide/decide.go:172-223 | the rows' effects come first, and the answer names exactly what the outcomes for its side do, one name for each |
| `DecideAnswers.OutcomesInOrder` | internal/decide/decide.go:198-219 | outcomes act in their order, after whatever went before |
| `DecideAnswers.FaultIff` | internal/decide/decide.go:53-114 | an answer is an error if and only if the profile is unknown, the address does not parse, or a row's set, countries or list are missing; and then nothing goes with it |
| `DecideAnswers.FaultSays` | internal/decide/decide.go:53-114 | which error it is, with its code, text and finding: an unknown profile before a malformed address, and that before a gap |
| `DecideAnswers.DenySpeaks` | internal/decide/decide.go:146-166 | where no allow row matches the topmost matching deny row speaks: its code and response or the kind's, its country, its finding, its reason and its mark |
| `DecideAnswers.AllowSpeaks` | internal/decide/decide.go:126-144 | the topmost matching allow row speaks whatever the deny rows say |
| `DecideAnswers.DefaultSpeaks` | internal/decide/decide.go:168-170 | the default speaks where no row matches, with its code |
| `DecideAnswers.ReasonIs` | internal/decide/decide.go:291-317 | something is disclosed exactly when the hit is a country, a system with a 32-bit number, or a list interval that is one block; and then that country, system or block |
| `DecideAnswers.HitSays` | internal/store/store.go:84-157 | a set says through what it matched: a table before a live set before the country, and an inverse set only that it is one |
| `DecideAnswers.KeyIs` | internal/store/store.go:179-191 | a profile is asked for by its name in lower case, and no name is the default's |
| `DecideAnswers.FiresFrom` | internal/overload/overload.go:33-39 | a threshold below the top is reached at its own fill and not before, at the top only a dropped request fires, and a dropped request always does |
| `DecideAnswers.OverloadIs` | internal/decide/decide.go:480-533 | exactly which overload requests and writes are made, for every fill, dropped or not, with or without an address that parses |
| `DecideLaws.OverloadGrows` | internal/overload/overload.go:33-39 | a fuller queue fires no less, and dropping fires no less than filling |
| `DecideLaws.ReorderKeepsVerdict` | internal/decide/decide.go:100-194 | any reordering of a profile's rows leaves the verdict of every check as it was, errors included |
| `DecideLaws.SideRowsDoNotDecide` | internal/decide/decide.go:172-194 | removing any request or list rows whose datasets are there changes neither verdict, code, text, response, findings, scope nor subject |
| `DecideLaws.LoadingIs` | internal/store/store.go:84-157 | exactly when less live data can take an address out of a set, and exactly when it can put one in |
| `DecideLaws.LoadingNeverCloses` | internal/decide/decide.go:126-170 | where live data only takes from allow sets and only adds to deny sets, an address allowed with more live data is allowed with less |
| `DecideLaws.ClosesIff` | internal/decide/decide.go:126-170 | for every profile less live data can turn allow into deny for an address if and only if, for some of the live names its rows ask about, the loss of a single one does |
| `DecideLaws.OneRowCloses` | internal/decide/decide.go:126-170 | for a profile of one row that is so if and only if a deny set can gain the address over an open default, or an allow set lose it over a closed one |
| `DecideLaws.LoadingListClosesRoute` | README.md:136-137 | on a snapshot that a tree loads to, a member of the one live list behind an inverse deny set is denied until the list arrives |
| `DecideLoaded.OnlyCountriesCanBeMissing` | internal/decide/decide.go:228-247 | on a loaded snapshot the only gap is a set that uses countries while no country is loaded |
| `DecideLoaded.DisclosureIsListed` | internal/decide/decide.go:291-317 | a disclosed address or network contains the client and every address in it lies in the blocks of the list named; a disclosed system or country has the client in its blocks |
| `DecideLoaded.MirroredSetsSuffice` | internal/store/store.go:443-483 | every live set a check asks about or writes to is one the snapshot says to mirror |
| `DecideLoaded.OverloadWritesMirrored` | internal/decide/decide.go:505-530 | overload outcomes write only to mirrored sets |
| `Desired.OneTree` | internal/desired/apply.go:141-202 | a pack and its blobs determine one tree over any directory |
| `Desired.CleanIff` | internal/desired/apply.go:92-98 | laid over a directory a pack gives its own tree if and only if it replaces everything that was there |
| `Desired.WriteGroup` | internal/desired/apply.go:148-170 | a group is written exactly when every blob is there and no path fails, over what was there before |
| `Desired.Stage` | internal/desired/apply.go:141-211 | writing succeeds exactly when everything can be written, and then the pack lies over what was in the directory |
| `Desired.FetchBlobs` | internal/desired/apply.go:35-77 | all blobs of a pack or none, as the store holds them; each hashes to its name |
| `Desired.Node.Reload` | internal/store/store.go:328-358 | it succeeds exactly when the tree is there, can be read, and is accepted or has the files of the loaded one; a failure, or a tree with those files, leaves the snapshot as it is |
| `Desired.FolderUnseen` | internal/store/store.go:798-857 | a tree with one directory more is another tree with the same fingerprint listing |
| `Desired.Node.ReloadFrom` | internal/store/store.go:316-326 | the same, and the path moves only on success |
| `Desired.Node.Swap` | internal/desired/apply.go:100-139 | park, promote, reload: exactly when the staged tree ends live and loaded; otherwise the snapshot is kept and with working undo steps the old tree is live again; nothing stays staged or parked that can be removed |
| `Desired.Node.Apply` | internal/desired/apply.go:83-139 | exactly when it succeeds, for all faults; success means the pack's tree, over what could not be cleared, is live and loaded, and exactly when that is the pack alone; failure keeps a snapshot built from the live tree, and the tree itself when the undo steps work |
| `Desired.LeftoverGoesLive` | internal/desired/apply.go:92-114 | a list that could not be cleared from the staging directory goes live, and is loaded, with a pack that does not have it |
| `Watch.LaidCarries` | internal/desired/apply.go:141-211 | every list, system and country file of a written pack hashes to the name the pack gives it |
| `Watch.Watcher.Handle` | internal/desired/watch.go:133-197 | exactly when an attempt ends in each of its outcomes, and the record it leaves: a pack is passed over exactly when the record says that this hash and revision are applied; only success changes hash, revision and names; only a failed fetch asks for a retry |
| `Watch.Watcher.Run` | internal/desired/watch.go:79-128 | over any sequence of entries, deletions and timers: an input brings an attempt if and only if it is an entry, or a timer and the attempt before it could not fetch; each attempt takes the newest entry; one is passed over exactly when the last attempt of consequence applied the same hash and revision; the record is of the last pack that went through, and its tree is what the snapshot was built from |

## Left out

- NATS, Redis, JetStream, gRPC, base64, YAML and JSON: frames, objects, replies and parsed values are inputs.
- SipHash and SHA-256: parameters. Blobs are checked against the given digest; equal fingerprints are assumed to mean the same files.
- Address zones and the invalid zero address: an address is IPv4 or IPv6 with a value.
- `sort.Slice` inside `merge`: sorting is a function on a sequence with the same order, not an exchange in place.
- `Locate`, `NextAddr` and the lookups of a set are functions because the source only reads there.
- Text: parsing lists and addresses, printing addresses and prefixes. Scope and subject are one structured value.
- Validation of policy fields in internal/policy: rules, outcomes and sets are taken with the few facts the load relies on
  (`Store.RuleOk`, `Store.OutcomeOk`, `Store.SpecOk`).
- The payload of a request to a neighbour: carried unread. The generation number in the audit fields of an answer.
- The merged table of a block that the source also builds and never consults; the counts of skipped lines.
- The mirror's log fields, last-seen time and silence detection; `Publish`, `Stats`; a mirror without a connection.
- Unicode: lower-casing and trimming of names are those of ASCII letters and the space.
- The pool's flow counters and the fill percentage; a handler call and the counter beside it are one step; a stopped timer may still
  fire, and others may act between the two clock readings of a submitter that starts to wait, which allows more runs than the program has.
- `PoolAccount.ClosedPoolDrains`: counts steps; that a runnable goroutine is eventually run is the scheduler's part.
- `Desired.Node.Apply`: one modification time stands for all files of one pack; the second fingerprint comparison after a build cannot differ
  when reloads are sequential.
- Reloads on a timer beside a swap, and two overlapping builds: reloads are sequential, and no order of generation numbers is claimed.
- `Watch.Watcher.Run`: whether the live sets could be synchronised is logged by the source and not part of the record.
- Settings of a pack, the pack's own hash and its reference checks: a pack is parsed or rejected as an input.
- Configuration, logging, audit events, the network directory, heartbeat, start and shutdown.
