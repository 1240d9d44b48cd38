# A verified model of the key-value store's indexes, device and request path

This project models the core of a flash key-value store and proves what it relies on. It has two
alternative indexes over a log-structured device, fed by a request path of a master thread, handler threads
and I/O pollers.

| files | what they model |
|---|---|
| `PartTable`, `TableBytes`, `Bucket`, `Recency` | the on-flash partition table, its layout in bytes, the four-way bucket with two-bit recency counters, the recency list they stand for |
| `BigKvStep`, `BigKvCache`, `BigKvRun`, `BigKvRecency`, `BigKvIndex` | the BigKV index: step functions for each dispatch, invariants and views of a partition, whole runs, and the index as arrays updated in place |
| `Hopscotch`, `HopscotchRun`, `HopscotchPayload`, `HopscotchBytes`, `HopscotchIndex` | the hopscotch index: table and displacement, GETs suspended among SETs, what becomes of the values, the bytes a suspended GET returns, the entry array updated in place |
| `KeyRecord` | the key at the head of a record, and its comparison byte by byte, for both indexes |
| `Allocator`, `DeviceModel`, `DeviceFlushes`, `Device` | grain allocation over segments, staged buffer / flushes / disk, overlapping flushes, and the device object |
| `BigKvOnDevice`, `BigKvTooEarly` | runs of the BigKV index over the device, and a read that comes before its flush |
| `LockFreeQueue`, `LockFreeResults`, `LockFreeOverrun`, `LockFreeProgress` | the compare-and-swap queue as atomic steps of any number of threads: chain, answers, bound, progress |
| `CondLock`, `Lifecycle`, `LifecycleQueues`, `LinkedQueue` | the counting lock, the life of request slots, the order in which they are served, the mutex-protected linked queue |
| `Ring`, `Multiples`, `Common` | ring positions shared by the indexes; arithmetic of grains and segments; shared types |

Each index is written twice on purpose: as step functions on values, over which runs are quantified, and as
classes over mutable arrays and request objects whose methods are proved to do exactly what the step
functions say. All sizes (slots, hops, partitions, segments, grain, queue sizes, lock depth) are parameters;
the bit widths of stored fields are explicit.

`dafny verify dfyconfig.toml` checks everything.

## Hypotheses

- Runs of the BigKV index are partition-serial: one request per partition between reading its table and the
  matching install or write; different partitions interleave freely. Requests that do not need the table come at any
  time: GETs that hit, SETs that a partition in flight sends back, and SETs that find an entry while a GET of another
  key waits (`BigKvRun.SetBesideGet` shows what happens to one of the same key). `hash_low` identifies a key within its
  partition. A GET with `hash_low` 0 asks for a key that exists (`PartTable.LookupAbsent` shows what happens
  otherwise). In runs every record has at least one grain that its size field counts
  (`BigKvRun.StoredRecordAnswers` shows what happens otherwise). The map that explains a run holds what each SET put
  on flash: the key over the head of the value buffer, as many grains as the size field says
  (`BigKvRun.ValueComesBack` says how much of the value that is).
- Both indexes see flash as write-once: the address of an allocation was not used before, i.e. the log has not
  wrapped onto live data, and it is not the reserved invalid address. `BigKvOnDevice.DeviceRunIsMap` derives this
  from the allocator until the log wraps.
- Keys are NUL-free and shorter than 256 bytes, and a key with its length byte fits one grain: then comparing the
  head of a record is comparing keys (`KeyRecord.CompareIsName`). The hash values of a key depend on its bytes alone.
- Runs over the device make each read when its segment is staged or has no flush under way
  (`BigKvOnDevice.HitAnswersIff` and `BigKvOnDevice.TableFetchIff` show what happens otherwise).
- Hopscotch SETs run to completion one after the other; GETs interleave with them dispatch by dispatch. Keys
  are not empty, values are made of whole grains (a tail is never written), at least one and no more than the
  11-bit size field can count. A read of no grains leaves the buffer as it was. The value buffer of a request
  starts with zeros at its head, as the program fills it (src/request.c:26, src/request.c:68).
- Allocation requests are at most a segment, and a partition table is made of whole grains. Callers write only into
  the extent just allocated.
- In the lock-free queue a freed node stays readable and its address is not handed out again; `m_size` is not
  negative. In the lock's counting mode releases match grabs.
- The request queues are larger than the lock depth plus the two threads that may be returning a request
  (1024 and 256 in the headers).
- The handler loop currently ends every request before the index is reached (src/handler.c:186-187); the
  model follows the dispatch written below it (src/handler.c:194-212), for SET and GET.

## Results that are negative

- Looking up fingerprint 0 returns a free slot when it is absent (`PartTable.LookupAbsent`, with the exact
  condition).
- A BigKV record of no whole grain is never read back: each GET of its key mismatches and starts over
  (`BigKvRun.StoredRecordAnswers`, exact); what stands behind the key comes back whole only under the condition of
  `BigKvRun.ValueComesBack`, and the head of the value never does unless it spelled the key.
- A read of a segment whose flush is under way returns what the disk had before: a GET that hits starts over, a GET
  that misses is told that its key does not exist (`BigKvOnDevice.HitAnswersIff`, `BigKvOnDevice.TableFetchIff`,
  exact; `BigKvTooEarly.GetComesTooEarly`).
- A hopscotch SET logs the client's bytes behind the key only if its scan read no record; an update of a record of
  the same size logs the old content again (`HopscotchPayload.ValueReachesLogIff`,
  `HopscotchPayload.UpdateKeepsOldContent`).
- A SET that fills an entry while a GET of the same key waits for the partition table is lost when the table has an
  older record (`BigKvRun.SetBesideGet`, exact).
- An empty key "matches" a free slot (`Hopscotch.EmptyKeyIff`, exact), and keys with NUL bytes can be mistaken for
  each other (`KeyRecord.RecordMatches`, exact).
- A segment whose flush overlaps with an earlier flush of the same segment can end up with the older bytes on
  disk (`DeviceFlushes.RacingFlushesLoseData`; `DeviceFlushes.HandOverDecides` is exact).
- The bound of the lock-free queue holds exactly when it is 0 or at most one thread enqueues, and fails otherwise by
  any number of nodes (`LockFreeOverrun.BoundHoldsIff`, `LockFreeOverrun.TwoEnqueuersOverrun`).
- A GET that misses in a partition never flushed reads at an invalid address (`BigKvRun.StartGetCrash`).

## Model

| member | source | states |
|---|---|---|
| `PartTable.FirstMatch` | src/bigkv_index.c:124-136 | the lookup loop stops at the first probe slot that carries the fingerprint, tested without regard to the address; every earlier slot carries another |
| `PartTable.LookupPresent` | src/bigkv_index.c:124-136 | a stored fingerprint is found, at its own occupied slot, with the stored location |
| `PartTable.LookupAbsent` | src/bigkv_index.c:124-136 | for an absent fingerprint the lookup goes wrong exactly when it is 0 and a free slot lies in its window; what it returns then is that free slot |
| `PartTable.ZeroFingerprintHitsFreeSlot` | src/bigkv_index.c:130-132 | concrete failing input: fingerprint 0 in the blank table "found" at its home slot |
| `PartTable.FindMatch` | src/bigkv_index.c:124-136 | the loop over "(idx+1) % entries" returns the slot of the first match, or -1 exactly when the window has none |
| `PartTable.Insert` | src/bigkv_index.c:159-185 | insertion is refused exactly when the whole probe window holds other fingerprints |
| `PartTable.FitFindsOwnSlot` | src/bigkv_index.c:165-174 | an already stored fingerprint stops the insertion loop at its own slot, never at an earlier free one |
| `PartTable.InsertUpdatesMap` | src/bigkv_index.c:159-185 | insertion keeps fingerprints unique and every slot at home plus offset with all earlier probe slots occupied, and changes the table's map at that fingerprint only |
| `PartTable.InsertInPlace` | src/bigkv_index.c:159-185 | the loop over the buffer writes exactly the specified slot in place, and changes nothing when it returns -1 |
| `PartTable.BlankIsEmpty` | src/bigkv_index.c:397-403 | the table a partition starts from is well formed and stands for the empty map |
| `PartTable.HistoryIsMap` | src/bigkv_index.c:159-185 | after any insertion history that finds room the table stands for the plain map with the same updates |
| `PartTable.LookupAfterHistory` | src/bigkv_index.c:124-185 | after any history a lookup returns what the plain map holds; for what it does not hold the answer is right exactly when the fingerprint is not 0 or the window has no free slot |
| `PartTable.NoRoomIff` | src/bigkv_index.c:200-204 | a batch of insertions aborts exactly when some item, in its turn, finds its window full of others |
| `PartTable.UpdatedByMembership` | src/bigkv_index.c:187-212 | entries that agree wherever they share a fingerprint can be merged in any order |
| `Bucket.Match` | src/bigkv_index.c:78-88 | first valid entry with the fingerprint, none before it |
| `Bucket.TargetOfHit` | src/bigkv_index.c:138-157 | a cached fingerprint keeps its entry |
| `Bucket.TargetOfMiss` | src/bigkv_index.c:138-157 | a miss gets the first free entry, else the one with the largest counter if that is clean, else none |
| `Bucket.CleanedHasTarget` | src/bigkv_index.c:149-156 | once no entry is dirty there is always an eligible victim, and lookups are unaffected |
| `Bucket.InstallWrites` | src/bigkv_index.c:294-307 | no two-bit counter wraps when the younger entries are aged |
| `Bucket.InstallKeepsSound` | src/bigkv_index.c:366-384 | valid entries stay first, with distinct fingerprints and distinct counters below their number; free ones keep the largest counter |
| `Bucket.InstallMatches` | src/bigkv_index.c:294-307 | after an installation lookups find the newcomer, lose only the entry that gave way, and agree on all others |
| `Recency.InstallIsMoveToFront` | src/bigkv_index.c:264-270 | a hit, a fill or a replacement moves the fingerprint to the front of the bucket's recency list and drops at most the last |
| `Recency.VictimIsLeastRecent` | src/bigkv_index.c:149-154 | in a full bucket the victim of a miss is the least recently used entry, and there is one exactly when it is clean |
| `Recency.CountersAreRecency` | src/bigkv_index.c:30-36 | over every access history the counters hold the order of a move-to-front list of capacity four |
| `BigKvCache.StoreGrows` | src/bigkv_index.c:374 | a block written at a fresh address changes neither invariant nor map of a partition |
| `BigKvCache.EvictedIsInTable` | src/bigkv_index.c:149-154 | an entry that gives way to another fingerprint is clean and the partition table still has its location |
| `BigKvCache.FillView` | src/bigkv_index.c:294-307 | filling an entry changes the map "bucket entries over partition table" at the new fingerprint only, evictions included |
| `BigKvCache.DirtyConsistent` | src/bigkv_index.c:195-209 | two dirty entries of a partition with one fingerprint are the same entry |
| `BigKvCache.MergedMap` | src/bigkv_index.c:187-212 | the flushed table stands for the old one overridden by the dirty entries |
| `BigKvCache.FlushInvisible` | src/bigkv_index.c:405-412 | a flush keeps the invariant and changes the view of no key, although it rewrites the table at a new address and cleans every bucket |
| `BigKvRun.CompareOwn` | src/bigkv_index.c:106-122 | a record reached through the view has at least one grain and is the reader's own, so the key comparison succeeds |
| `BigKvRun.StartGetCrash` | src/bigkv_index.c:262-277 | a GET reads at an invalid table address exactly when it misses in a partition never flushed, and then its key was never stored |
| `BigKvRun.StartGetEffect` | src/bigkv_index.c:262-277 | first dispatch of a GET: invariant kept, no view changed, a hit answers with the view's record |
| `BigKvRun.ResumeGetEffect` | src/bigkv_index.c:279-317 | second dispatch of a GET: table answer, caching, flush and retry keep the invariant and every view |
| `BigKvRun.FlushThenCache` | src/bigkv_index.c:292-317 | the retry after the flush finds a clean victim, and flush plus caching change no view |
| `BigKvRun.FillPutEffect` | src/bigkv_index.c:365-388 | filling the entry of a SET of at least one grain changes the view at its key to the new record and at no other key |
| `TableBytes.WordRoundTrip` | include/bigkv_index.h:37-42 | offset, size and address of a slot that fit their 8, 14 and 42 bits come back from the slot's second word |
| `TableBytes.SlotLayout` | include/bigkv_index.h:37-42 | the sixteen bytes of a slot, read as two words with their lowest byte first, are the fingerprint, then offset, size and address from the lowest bit up |
| `TableBytes.TableRoundTrip` | include/bigkv_index.h:37-46 | a partition table whose slots fit their bit fields comes back from its sixteen bytes a slot, whatever stands behind them in the buffer |
| `TableBytes.InsertAllInFields` | src/bigkv_index.c:159-185 | no insertion into a table makes a slot that does not fit its bit fields |
| `BigKvCache.MergedInFields` | src/bigkv_index.c:405-411 | every table that a flush writes fits its bit fields |
| `BigKvStep.KeptIff` | src/bigkv_index.c:372 | the buffer with the key over its head is written as a whole exactly when it is made of whole grains, fewer than the 14-bit size field can count |
| `BigKvStep.BucketsAreSpread` | src/bigkv_index.c:337-343 | keys share partition and bucket exactly when their high hashes agree modulo the number of all buckets |
| `BigKvStep.KeptSpellsKey` | src/bigkv_index.c:416-418 | a record of at least one grain that counts has its whole key at its head |
| `BigKvRun.StoredRecordAnswers` | src/bigkv_index.c:106-122 | a stored record answers the GETs of its key exactly when its size field is not 0 (or the key is empty), with the bytes on flash, key first; otherwise every GET mismatches, changes nothing and starts over, whatever is written meanwhile |
| `BigKvRun.ValueComesBack` | src/bigkv_index.c:365-418 | for every value length a GET gives back as many whole grains as the 14-bit size field counts, the key at the head and the buffer's bytes behind it (and never ends if that is no grain); that is all of the value exactly when it is made of whole grains, at least one and fewer than the field can count, and the very buffer exactly when its head also spelled the key |
| `BigKvRun.WriteTableEffect` | src/bigkv_index.c:405-412 | the table write of a SET changes no view and leaves a target for its key |
| `BigKvRun.SetInThreeDispatches` | src/bigkv_index.c:330-426 | a serial SET is done after at most three dispatches unless a flush aborts |
| `BigKvRun.BouncedSetGetsThrough` | src/bigkv_index.c:360-363 | a SET that meets its partition in flight changes nothing and gets no reply, however often it comes; the flush it met is over after the next dispatch of the SET that started it, the partition idle after two, unless that flush aborts |
| `BigKvRun.GetInTwoDispatches` | src/bigkv_index.c:228-325 | a GET is answered after at most two dispatches with what its partition shows at the dispatch that answers, hits and SETs served in between included, or aborts under an exact condition |
| `BigKvRun.GetIgnoresFlight` | src/bigkv_index.c:262-317 | a GET neither waits for a flush under way nor ends one |
| `BigKvRun.SetBesideGet` | src/bigkv_index.c:279-317 | a SET that fills an entry while a GET waits for the partition's table is lost exactly when it is of the GET's key and the table has an older record of it |
| `BigKvRun.GetSecondDispatch` | src/bigkv_index.c:292-317 | the retry loop runs at most twice: the second dispatch of a GET aborts exactly when its flush finds no room, never for want of a table |
| `BigKvRun.StepKeepsInv` | src/bigkv_index.c:228-426 | every event in any partition keeps the invariant of all partitions |
| `BigKvRun.StepRefines` | src/bigkv_index.c:228-426 | one event refines one plain map: only a finished SET changes it, at its own key, and GETs report it; a SET that meets a flush under way changes nothing |
| `BigKvRun.SerialRunIsMap` | src/bigkv_index.c:228-426 | every partition-serial run from the empty index, interleaved over any number of partitions, with hits, SETs sent back by a flying partition and SETs beside a waiting GET in between, is explained by one plain map from keys to the bytes that their last SET put on flash |
| `BigKvRecency.ResumeGetOrdered` | src/bigkv_index.c:294-307 | flush, retry and caching move exactly the served fingerprint to the front of its bucket |
| `BigKvRecency.CountersFollowRequests` | src/bigkv_index.c:228-426 | in every partition-serial run the counters of every bucket are the move-to-front list of the requests it served |
| `BigKvIndex.Index.constructor` | src/bigkv_index.c:19-55 | all buckets fresh, all partitions without table and not in flight |
| `BigKvIndex.Index.GetMatchEntry` | src/bigkv_index.c:78-88 | the scan returns the specified entry |
| `BigKvIndex.Index.GetTargetEntry` | src/bigkv_index.c:138-157 | the three scans return the specified target |
| `BigKvIndex.Index.InstallEntry` | src/bigkv_index.c:366-384 | writing the entry and the ageing loop change exactly that bucket, as specified |
| `BigKvIndex.Index.MergeBucket` | src/bigkv_index.c:197-208 | the inner flush loop merges one bucket's dirty entries in order and cleans it |
| `BigKvIndex.Index.UpdatePartTable` | src/bigkv_index.c:187-212 | the flush loops succeed exactly when every dirty entry finds room, and then leave merged table and clean buckets, other partitions untouched |
| `BigKvIndex.Index.TargetForGet` | src/bigkv_index.c:292-317 | the retry loop terminates after at most one flush, in the specified state |
| `BigKvIndex.Index.FetchTable` | src/bigkv_index.c:90-97 | the table read leaves the table in the request's buffer and both step fields set |
| `BigKvIndex.Index.GetFirst` | src/bigkv_index.c:262-277 | in-place first dispatch of a GET equals the step function's outcome |
| `BigKvIndex.Index.GetSecond` | src/bigkv_index.c:279-317 | in-place second dispatch of a GET equals the step function's outcome |
| `BigKvIndex.Index.SetEntry` | src/bigkv_index.c:365-403 | in-place "bi_get_entry" equals the step function's outcome |
| `BigKvIndex.Index.SetTableWrite` | src/bigkv_index.c:405-412 | in-place "bi_write_ptable" equals the step function's outcome |
| `BigKvIndex.Index.Get` | src/bigkv_index.c:228-327 | one dispatch of a GET on the arrays is one step of the run model; other partitions are untouched |
| `BigKvIndex.Index.Set` | src/bigkv_index.c:330-426 | one dispatch of a SET on the arrays is one step of the run model, a flying partition sends it back unchanged |
| `BigKvOnDevice.NextIsFresh` | src/device.c:181-208 | until the log wraps, the allocator's next address is used by no block and is not the reserved one |
| `BigKvOnDevice.StepKeepsInv` | src/bigkv_index.c:228-426 | every dispatch over the device, settled or not, and every finished flush keeps what was written remembered at its own extent; the run model's demand for fresh addresses is met |
| `BigKvOnDevice.SeenBlock` | src/device.c:120-141 | at the address of what the index wrote the device returns those bytes, from the staged buffer, or from disk unless its segment's flush is under way |
| `BigKvOnDevice.SeenTooEarly` | src/device.c:130-139 | while that flush is under way it returns zeros |
| `BigKvOnDevice.SameDispatch` | src/bigkv_index.c:228-426 | a dispatch that decides on the bytes the device returns does what it would do on the record of all writes, when the one address it reads is staged or has no flush under way |
| `BigKvOnDevice.DeviceRunIsMap` | src/bigkv_index.c:228-426 | every partition-serial run over the device until the log wraps, each dispatch deciding on the bytes the device returns, flushes completing in any order, no read made while its segment's flush is under way: fresh addresses, and the replies of one plain map |
| `BigKvOnDevice.HitAnswersIff` | src/bigkv_index.c:319-321 | a GET that hits in its bucket is answered exactly when its record's segment is staged or has no flush under way; otherwise it mismatches and starts over |
| `BigKvOnDevice.TableFetchIff` | src/bigkv_index.c:274-284 | a GET that misses is handed its partition table exactly when that table's segment is staged or has no flush under way; otherwise it is told that its key does not exist, whatever was stored |
| `BigKvTooEarly.GetComesTooEarly` | src/device.c:130-139 | concrete failing run: two SETs and a GET of the first key while the flush of its segment is under way finds a foreign record |
| `Hopscotch.FirstTag` | src/hopscotch.c:72-82 | first offset at or after the start whose slot carries the tag, whatever its address |
| `Hopscotch.HomesAndTagsAreSpread` | src/hopscotch.c:195-198 | keys share home slot and tag exactly when their hashes agree in the index and tag bits |
| `Hopscotch.HitIsOwnSlot` | src/hopscotch.c:132-137 | a tag hit on a free slot reads nothing and never becomes a match; a match is the key's own slot at its own offset |
| `Hopscotch.FindKeyIsLookup` | src/hopscotch.c:225-235 | the scan with key comparison finds a key exactly when it is present, at the offset its slot records |
| `Hopscotch.EmptyKeyIff` | src/hopscotch.c:132-137 | the scan for an empty key goes wrong exactly when the first slot with its tag is free; it then ends at that slot as a match |
| `Hopscotch.EmptyKeyMatchesFreeSlot` | src/hopscotch.c:132-137 | concrete failing input: an empty key with tag 0 matches a free slot of the empty table |
| `Hopscotch.NoRoomIff` | src/hopscotch.c:98-130 | -1 exactly when the window is full and no entry in it has a free later slot in its own neighbourhood |
| `Hopscotch.RoomIsNearest` | src/hopscotch.c:98-130 | the slot chosen is the first free one of the window, or else that of the last entry in it that can move, copied to the first free later slot of its own neighbourhood |
| `Hopscotch.OriginIsHome` | src/hopscotch.c:115 | an entry's home slot is recovered from its offset |
| `Hopscotch.MovedSlot` | src/hopscotch.c:116-122 | a displaced entry goes to a free slot of its own neighbourhood at a strictly larger offset |
| `Hopscotch.MovedLatest` | src/hopscotch.c:116-122 | displacement changes no binding and moves keys only forward |
| `Hopscotch.FillLatest` | src/hopscotch.c:245-249 | the final fill rebinds the SET's key and no other |
| `Hopscotch.LandingOk` | src/hopscotch.c:225-243 | the slot a SET fills is free or its own key's, and nothing visible has changed before the fill |
| `Hopscotch.SetUpdatesMap` | src/hopscotch.c:189-257 | a completed SET keeps the table well formed (slot = home + offset, no key twice) and changes the map at its own key only |
| `Hopscotch.SetMovesForward` | src/hopscotch.c:109-124 | whatever is set, a present key stays present and its offset never decreases |
| `Hopscotch.SetAbortsIff` | src/hopscotch.c:237-243 | a SET aborts exactly when its key is new and find_free_entry fails |
| `HopscotchRun.EveryRunRefinesMap` | src/hopscotch.c:189-315 | over every sequence of completed SETs and GET dispatches the table is the map of the latest addresses |
| `HopscotchRun.DispatchOnTrack` | src/hopscotch.c:290-313 | a GET dispatch that hits returns the key's latest address at that moment; otherwise its scan stays at or before the key |
| `HopscotchRun.SuspendedGetIsAtomic` | src/hopscotch.c:266-315 | a GET spread among any number of whole SETs returns a record that was latest at some moment of the run, and "not existing" only if the key was absent when it began |
| `HopscotchRun.GetEnds` | src/hopscotch.c:290-313 | a GET has its answer after at most one dispatch more than its neighbourhood has slots |
| `HopscotchPayload.PayloadSurvivesIff` | src/hopscotch.c:230-253 | in the log after the SET the bytes behind the key are the client's, whatever the client sent, exactly when the scan reads no record into the value buffer it shares |
| `HopscotchPayload.ReadsRecordIff` | src/hopscotch.c:226-235 | the scan reads a record exactly when the list of records under the key's tag, from its home slot to its own slot or the end of the window, is not empty |
| `HopscotchPayload.ValueReachesLogIff` | src/hopscotch.c:226-253 | the two combined: the client's bytes reach the log behind the key exactly when no record is in the way, a condition on the table before the SET |
| `HopscotchPayload.SetLogsRecord` | src/hopscotch.c:226-253 | byte by byte what a SET logs from any buffer: as many whole grains as the size field counts, the key at the head, behind it of every byte what the last record in the way that reaches it has there, or else the client's; every other record stays |
| `HopscotchPayload.SetKeepsContents` | src/hopscotch.c:247-253 | every SET leaves each record in the log with its whole grains and its key at the head |
| `HopscotchPayload.UpdateKeepsOldContent` | src/hopscotch.c:233-253 | an update no longer than the record it replaces logs that record's bytes again |
| `HopscotchBytes.SetIsLogged` | src/hopscotch.c:245-253 | after a whole SET among the dispatches of a GET its key's latest address is the one it was given, and the log has its record there |
| `HopscotchBytes.HitShowsRecord` | src/hopscotch.c:132-137 | a dispatch that finds the key leaves in the GET's buffer the bytes at the key's latest address |
| `HopscotchBytes.SuspendedGetReturnsBytes` | src/hopscotch.c:301-315 | a GET suspended among any number of SETs ends with the bytes that the log had at the key's latest address at some moment of the run, or with "not found" for a key absent when it began |
| `HopscotchIndex.Index.FindMatchingTag` | src/hopscotch.c:72-82 | the scan loop returns the specified offset, or -1 |
| `HopscotchIndex.Index.FindSpare` | src/hopscotch.c:115-123 | the inner loop finds the first later free slot of the entry's neighbourhood |
| `HopscotchIndex.Index.MakeFreeSlot` | src/hopscotch.c:109-125 | the outer loop goes from the far end of the window to the first entry that can move and copies it |
| `HopscotchIndex.Index.FindFreeEntry` | src/hopscotch.c:98-130 | the loops return the specified offset, with the displaced entry copied in place, or -1 with nothing changed |
| `HopscotchIndex.Index.Get` | src/hopscotch.c:266-315 | one dispatch of a GET on the array is one step of the run model; a GET that finds its record ends with that record's bytes in its value buffer |
| `HopscotchIndex.Index.ScanOn` | src/hopscotch.c:225-235 | the next tag hit is read and compared, or the scan is over; table form and value that the SET will end with stay the same |
| `HopscotchIndex.Index.Set` | src/hopscotch.c:189-257 | one dispatch of a SET advances the scan and loses nothing of what it will end with, or brings the table into its final form and logs the whole grains of the buffer that the scan leaves, byte by byte, with the key at its head |
| `HopscotchIndex.Index.SetToCompletion` | src/hopscotch.c:189-257 | a SET dispatched until done terminates, with the table the whole-SET specification gives, or aborts exactly when that does; the record it logs has the key at its head and behind it, byte by byte, the client's buffer as the records in the way left it |
| `HopscotchIndex.Index.WellFormedInBits` | include/hopscotch.h:23-28 | every reachable table fits the bit fields |
| `KeyRecord.RecordMatches` | src/hopscotch.c:132-137 | a record written for one key compares equal to another exactly when lengths agree and the strings do up to a NUL |
| `KeyRecord.RecordIdentifiesKey` | src/hopscotch.c:132-137 | without NUL bytes a record compares equal to its own key only |
| `KeyRecord.NulKeysCollide` | src/hopscotch.c:136 | concrete failing input: two different keys that share a prefix ending in NUL |
| `KeyRecord.ZeroBufferMatchesEmptyKey` | src/request.c:26 | a zeroed buffer compares equal to the empty key only |
| `KeyRecord.CompareIsName` | src/hopscotch.c:132-137 | for a key without NUL bytes the byte comparison succeeds exactly when the head of the buffer spells that key, which is how both index models compare |
| `KeyRecord.NameAtHead` | src/bigkv_index.c:416 | a buffer that a key was copied to spells that key |
| `KeyRecord.HeadIsKept` | src/hopscotch.c:252 | copying a key over the head changes nothing exactly when the head spells it already |
| `KeyRecord.CopyKeyToValue` | src/hopscotch.c:9-12 | length byte and key bytes overwrite the head of the buffer, the rest stays |
| `KeyRecord.CompareKeyWithValue` | src/bigkv_index.c:99-104 | the comparison loop returns the specified sign |
| `Allocator.StaysInSegment` | src/device.c:189-205 | although the fit check uses the unrounded size, an extent lies inside its segment exactly when the request is at most a segment |
| `Allocator.NextIsTight` | src/device.c:189-205 | a segment is left exactly when the request does not fit behind what is taken of it, an extent begins where the last one ended, and its padding is less than a grain |
| `Allocator.NextIsAligned` | src/device.c:199-205 | extents begin and end on grain boundaries |
| `Allocator.PbaIsExact` | src/device.c:199 | the address in grains names the extent's first byte exactly |
| `Allocator.ExtentsAreShaped` | src/device.c:181-208 | in any sequence of requests each extent is aligned, inside one segment and large enough |
| `Allocator.ExtentsAdjoin` | src/device.c:181-208 | in any sequence of requests each extent adjoins the one before, or begins the next segment because its request did not fit |
| `Allocator.ExtentsAreDisjoint` | src/device.c:171-208 | in any sequence of requests two extents are disjoint unless the first one's segment was staged again in between |
| `DeviceModel.SubmitKeepsInv` | src/device.c:190-194 | submitting the full buffer keeps buffer, pending flushes and disk in agreement with what was written |
| `DeviceModel.StageKeepsInv` | src/device.c:171-179 | staging the next segment keeps the agreement |
| `DeviceModel.CompleteKeepsInv` | src/poller.c:31-49 | a flush that completes, in any order, keeps the agreement |
| `DeviceModel.ReadIsLastWritten` | src/device.c:120-141 | a read of the staged segment or of a settled one returns every byte last written there |
| `DeviceFlushes.FlushOrderDecides` | src/device.c:189-197 | a handed-over segment gives its data back in every completion order exactly when all its flushes under way bring that data, or none is under way and the disk has it |
| `DeviceFlushes.HandOverDecides` | src/device.c:189-197 | checked before an allocation hands the staged segment over: its data comes back in every completion order exactly when every earlier flush of the segment still under way brings the same bytes |
| `DeviceFlushes.ExtentReadsBackIff` | src/device.c:106-158 | what is written to an extent, after any run that leaves it alone: read back while staged, and from then on in every completion order exactly when the segment's flushes under way agree on it |
| `DeviceFlushes.RacingFlushesLoseData` | src/device.c:192-194 | concrete failing run from the fresh device: two flushes of one segment complete in the wrong order, nothing is pending, and the disk holds the older byte |
| `DeviceModel.BlockFitsItsExtent` | src/bigkv_index.c:410-418 | a block written right after its allocation, in grains rounded down, lies in its own extent inside the staged segment |
| `Device.Dev.IsStaged` | src/device.c:106-118 | 0 exactly for addresses in the allocated part of the staged segment, -1 below it, 1 at or beyond its offset |
| `Device.Dev.GetNextPba` | src/device.c:181-208 | allocation in place: address, offsets, flush submission and staging as specified |
| `Device.Dev.StageNextSegment` | src/device.c:171-179 | the next segment, round the device, is staged empty |
| `Device.Dev.Write` | src/device.c:143-158 | the copy loop changes exactly the extent's bytes of the staged buffer |
| `Device.Dev.Read` | src/device.c:120-141 | the bytes come from the staged buffer below its offset, else from disk |
| `Device.Dev.Append` | src/hopscotch.c:247-253 | allocate, then write at that address: the write always meets the buffer's bounds |
| `LockFreeQueue.StepKeepsInv` | src/lfqueue.c:17-57 | every atomic step of every thread keeps one repetition-free chain, both ends in it, and the tail lagging by at most one node, its swing still to come |
| `LockFreeQueue.LinkIsAtEnd` | src/lfqueue.c:29-31 | a successful link appends at the true end, wherever the head is, and the tail did not lag before |
| `LockFreeQueue.OtherInstruction` | src/lfqueue.c:24-54 | an instruction that does not link leaves the chain alone, moves either end by at most one node, to the node its compare-and-swap names, and tells its thread the truth |
| `LockFreeResults.EndsMoveByOne` | src/lfqueue.c:23-51 | both ends only move forward, one node per step, and the tail never lags by two |
| `LockFreeResults.StepKeepsTaken` | src/lfqueue.c:40-57 | each head swing's value is with one thread or returned once, and is the value linked at that position |
| `LockFreeResults.IdleResultsAreFirstValues` | src/lfqueue.c:40-57 | with all threads idle the dequeues returned exactly the first linked values, in link order, one each |
| `LockFreeResults.EmptyAnswerIsTrue` | src/lfqueue.c:40-57 | whatever its next instruction is, a dequeue goes on, or ends with the value behind the node it took, or ends empty-handed at an instant when the queue was empty |
| `LockFreeResults.RefusalIsTrue` | src/lfqueue.c:17-38 | whatever its next instruction is, an enqueue keeps its node until it is linked at the end of the chain, ends without linking only on seeing the size meet the bound, and cannot fail after linking |
| `LockFreeResults.EveryStepIsHonest` | src/lfqueue.c:17-57 | both for every thread and every step, and no step changes the value of a node |
| `LockFreeResults.StepKeepsSize` | src/lfqueue.c:36-55 | size = nodes present - enqueuers between link and add + dequeuers between swing and subtract |
| `LockFreeResults.EveryRunIsGood` | src/lfqueue.c:17-57 | in every interleaving of any number of threads chain, results and size are right, and every step of every thread is honest |
| `LockFreeResults.SingleEnqueuerIsBounded` | src/lfqueue.c:25-36 | with a single enqueuer the nodes present never exceed m_size, in every run |
| `LockFreeOverrun.TwoEnqueuersOverrun` | src/lfqueue.c:25-29 | for every positive m_size and every n any two enqueuers have a run that leaves more than n nodes beyond m_size |
| `LockFreeOverrun.BoundHoldsIff` | src/lfqueue.c:25-36 | in every run the nodes present stay within m_size exactly when it is 0 or at most one thread enqueues |
| `LockFreeProgress.RetryMeansProgress` | src/lfqueue.c:22-34 | an operation goes round again only because another thread has moved the head or linked a node since it last read |
| `LockFreeProgress.EveryOperationEnds` | src/lfqueue.c:17-57 | in every interleaving a thread ends its operation within seven of its own instructions and five more for each node linked by then |
| `CondLock.StepKeepsInv` | src/cond_lock.c:14-79 | each critical section keeps the counter in range and no un-notified thread asleep that could proceed |
| `CondLock.NoWakeUpIsLost` | src/cond_lock.c:14-79 | the same over every interleaving, in both modes, spurious wake-ups included; whenever the counter allows it every thread inside cl_grap is awake and its next test succeeds |
| `Lifecycle.Census` | src/handler.c:51-54 | the slots in all places add up to the slots there are |
| `Lifecycle.PoolNeverDry` | src/request.c:37 | the pool dequeue never yields NULL |
| `Lifecycle.NoQueueOverflows` | src/handler.c:130-146 | neither request queue nor retry queue nor pool ever refuses a request |
| `Lifecycle.StepConserves` | src/handler.c:130-159 | every event leaves each slot in exactly one place |
| `Lifecycle.StepKeepsLock` | src/request.c:82-106 | the flying count equals the requests between grab and release |
| `Lifecycle.NoRequestIsLost` | src/handler.c:130-214 | in every interleaving of master, handler and poller each slot is in one place, none is refused by a queue, and the lock counts those between grab and release; retries that arrive between the handler's looks at its two queues included |
| `Lifecycle.NothingFliesAtStop` | src/handler.c:179-181 | when the flying count is 0 no request is queued, in I/O or in a worker's hands |
| `Lifecycle.MasterSleepsOnlyWhenFull` | src/handler.c:132 | the master sleeps in the lock only while as many requests fly as the queue depth |
| `LifecycleQueues.QueuesKeepOrder` | src/handler.c:130-159 | over every run requests leave the pool, the request queue and the retry queue in the order in which they entered, none passed over |
| `LifecycleQueues.TakenInTurn` | src/handler.c:148-159 | the slot at position i of the retry (request) queue is in the handler's hands after i + 1 looks at that queue |
| `LifecycleQueues.RetryIsTakenUp` | src/handler.c:177-214 | a request in the retry queue behind i others is in the handler's hands after at most 5 (i + 1) steps of the handler, whatever master and poller do |
| `LifecycleQueues.NewRequestsComeLast` | src/handler.c:148-156 | a new request is taken only on a pass that found the retry queue empty |
| `LifecycleQueues.EveryRunServesInOrder` | src/handler.c:130-214 | all of this from the start, in every run and from every point of it |
| `LinkedQueue.Queue.Enqueue` | src/queue.c:13-33 | appends at the back, refuses exactly when full |
| `LinkedQueue.Queue.EnqueueFront` | src/queue.c:35-54 | prepends at the front, refuses exactly when full |
| `LinkedQueue.Queue.Dequeue` | src/queue.c:56-71 | takes the front, NULL exactly when empty; the tail is left as it was, stale after the last node |
| `LinkedQueue.Queue.Pick` | src/queue.c:73-84 | shows the front without taking it |
| `LinkedQueue.RunAll` | src/queue.c:13-71 | any mix of the three operations answers as a bounded sequence does |
| `Ring.AtIsModulo` | src/hopscotch.c:75 | the ring position used in the proofs is the program's modulo expression |

## Left out

- Sockets, epoll, the client and server main loops, the acknowledgements sent at the end of a request.
- CityHash: a key carries arbitrary hash values (BigKV) or is hashed by an arbitrary function (hopscotch).
- The asynchronous I/O library and its error handling: submission and completion of a flush are single steps, and a
  read takes place when it is submitted; a read of a segment in flight may in fact be served later.
- Two requests of one BigKV partition that both have its table: a GET does not look at `flying`, and a SET that comes
  back after its table write skips the check, so refinement is not claimed there. Likewise hopscotch SETs
  interleaved with each other, whose resumed match trusts a saved offset.
- BigKvRun.SerialRunIsMap: a run ends at an abort (no room in a probe window, or a table read at an invalid
  address); the model says exactly when that happens, not what a restart would find.
- A comparison read of a hopscotch SET that runs over the end of a shorter value buffer: HopscotchPayload cuts it
  off at the end. A GET's buffer is taken to be large enough.
- A SET whose value is shorter than its key and length byte: the copy of the key would run over the buffer.
- The composition of the hopscotch index, and of the index classes, with the device: BigKvOnDevice composes the
  BigKV step functions with the device model, which the class Device.Dev refines; Device.Dev.Append shows that the
  allocate-then-write pattern of both indexes meets the device's demands.
- DELETE, RANGE, ITERATOR, table resizing and reclaiming live data after the log wraps: the program does not
  implement them.
- Exhaustion of the callback and I/O control block pools, memory freeing (other than the lock-free queue's
  hypothesis), aliasing of freed buffers.
- Scheduling: how many steps a request, a retry or a compare-and-swap loop takes is counted in steps of its own
  thread; no claim that the scheduler runs that thread, or that the request queue is served while retries keep coming.
- The memory model below the lock-free queue: each instruction is one sequentially consistent step.
- `cl_cond_grap`, `cl_now_update`, the `_with_f` variants and the integer queue: unused or near-duplicates.
- Stopwatches, statistics, key generation, CPU affinity and huge pages.
