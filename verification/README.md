# pyhems in Dafny

pyhems talks ECHONET Lite to home devices whose capacity to answer GET requests is unknown and often
faulty. This project models the protocol logic of pyhems and proves what every request, every run and
every interleaving keeps. It is written for Dafny 4.11; `dafny verify dfyconfig.toml` checks all of it.

| file | part of the program |
|---|---|
| `Basics.dfy` | shared vocabulary |
| `GetBatchPolicy.dfy` | device-specific limits and the greedy planning of one GET request |
| `GetBatches.dfy` | the adaptive batching loop, with the shared state of a device object |
| `GetBatchTheorems.dfy` | request bound, conservation, discipline of the learned limit |
| `GetBatchAccuracy.dfy` | how exactly a real limit is learned, and with how many requests |
| `FirstValues.dfy` | which of the values returned for an EPC is kept |
| `ExchangeRules.dfy` | what each request of a read comes to, in terms of what the reply lists |
| `PolicyRules.dfy` | the device-specific constraints said outright |
| `RepeatedReads.dfy` | the stored limit over any sequence of reads of a device object |
| `DeviceReads.dfy` | `setup_get` and `get` around the loop |
| `ReadRules.dfy` | what a read does before the loop, and what it returns for each EPC |
| `NodeRequestQueue.dfy`, `SlotRuns.dfy`, `SlotOutcomes.dfy` | the per-node request slot, all its runs, and what each step does to the requests concerned |
| `TransactionIds.dfy` | allocation of transaction IDs |
| `RequestTable.dfy`, `RequestClient.dfy` | requests in flight: all runs of a session, and the client object that makes those steps |
| `RequestOutcomes.dfy` | what sending registers, which frames are delivered to whom, what ending returns |
| `ValueDecoder.dfy` | the backtracking decoder of structured values and its grammar of lengths |
| `DecoderRules.dfy` | what the decoder accepts: widths, arrays, objects |
| `DeviceManager.dfy`, `DeviceRuns.dfy`, `DeviceManagerObject.dfy` | node jobs, setup, deferral of frames, range initialization: steps, all runs, and the object that makes those steps |
| `DeferralCap.dfy` | what the cap on deferred frames costs |
| `ManagerOutcomes.dfy` | what each event does to caches, deferred frames, jobs, setups and ranges |
| `Subscriptions.dfy` | reference-counted interest in EPCs |
| `Poller.dfy`, `PollCycle.dfy` | adaptive intervals, spacing of cycles, the requests of one cycle |
| `PollRules.dfy` | when the poller polls, and how it backs off |
| `FrameLayout.dfy` | the bytes of a frame position by position, and why datagrams are refused |
| `FrameCodec.dfy` | parser and printer of frames (section 3.2 of the ECHONET Lite Specification, Part II) |

## How the environment is modelled

* A device is an arbitrary function from the number of the request and the EPCs requested to a reply:
  not sent, not answered, ended by a stop of the client, or any list of properties whatever. The reply
  also says what other calls did to the shared limit and manufacturer code while the request was
  outstanding. Nothing else is assumed of it, except in `GetBatchAccuracy.dfy`, which is about devices
  that do have a limit.
* A coroutine is the sequence of the pieces of code between its awaits. Each piece is one atomic step, and
  the theorems hold for every interleaving. Futures and tasks are represented by the phase a request or
  a job task is in.
* Classes follow the source's objects and update their fields in place. Each of their methods is tied by
  its contract to the function for the step it makes, and the theorems are about runs of those
  functions. Ghost fields stand for coroutine locals and history.
* The heap of waiting requests is a sequence sorted by (priority, sequence number).
* Times and latencies are reals; the clock does not go back. A device without poller state behaves as
  one whose state has just been created.
* Scalars are decoded from their bytes by an arbitrary partial function (`Leaves`).

## What the code does beyond its documentation

* One would expect the value kept for an EPC to be the first non-empty one that a device returned in a
  reply to a request for it. If the reply that first offers a value lists the EPC empty before that, its
  value is not kept: `FirstValues.FirstOfferIsKept` proves this for every run, in both directions. What
  happens instead depends on the rest of the reply. If the EPC counts as answered, the value is lost
  (`FirstValues.OfferIsLost`). If every first listing in the reply is empty while setup does not know
  a limit and asked for two EPCs or more, the batch is halved and asked for again
  (`FirstValues.OfferIsSetAside`).
* After `stop`, a request that was failed while waiting and then cancelled before it resumed releases a
  slot it never had. `SlotRuns.StrayReleaseHappens` gives such a run; `SlotRuns.SlotIsOneToken` says
  exactly when `_busy` is then wrong. Queues still registered are not affected.
* The `finally` block of a request removes its table entry by TID alone. In every session this removes the
  entry of another request exactly when the TID is pending for another
  (`RequestTable.EndDropsAnother`), and that request is then never answered (`RequestTable.OrphanStays`).
  It does happen (`RequestTable.DropHappens`): a request is answered, 65534 TIDs are drawn before its task
  resumes, and the next request is given its TID. It cannot happen while the counter has not gone all the
  way round between an answer and the resumption of the request (`RequestTable.EntriesAreOwn`).
  That there is one request per node, and that responses belong to their requests, does not depend on
  this.
* The cap of 64 deferred frames counts all responses and notifications for the object, not only those that
  carry values (`DeviceRuns.KeptFrames`). With at most 64 of them no value is lost
  (`DeviceRuns.NoFrameIsLost`). Past 64 an older value can replace the one that setup read, although the
  device has reported that one again (`DeferralCap.StaleValueReplacesRead`).
  `DeferralCap.RegisteredAsIfUncapped` says for each EPC exactly when the cap makes no difference.

## Model

| member | source | states |
|---|---|---|
| GetBatchPolicy.TakeFirstBatch | src/pyhems/get_batch_policy.py:60-93 | rejects a capacity below 1; otherwise returns the greedy plan, for which the next rows hold |
| GetBatchPolicy.SplitIsGreedy | src/pyhems/get_batch_policy.py:79-93 | batch and remainder are the two order-preserving halves of a marking that takes an EPC exactly when there is room and it does not clash with those taken before |
| GetBatchPolicy.GreedyIsUnique | src/pyhems/get_batch_policy.py:79-93 | there is only one such marking, so the plan is determined by that description |
| GetBatchPolicy.SplitPartitions | src/pyhems/get_batch_policy.py:60-93 | batch and remainder make up the request as multisets |
| GetBatchPolicy.SplitTakesOne | src/pyhems/get_batch_policy.py:60-93 | a non-empty request gives a non-empty batch |
| GetBatchPolicy.SplitIsLegal | src/pyhems/get_batch_policy.py:45-93 | a batch is within the capacity and holds no two EPCs of an incompatible pair |
| GetBatchPolicy.SplitIsMaximal | src/pyhems/get_batch_policy.py:45-93 | an EPC is left over only if the finished batch is full or clashes with it |
| GetBatchPolicy.SplitKeepsDistinct | src/pyhems/get_batch_policy.py:60-93 | distinct EPCs stay distinct and none is in both halves |
| PolicyRules.PolicyTable | src/pyhems/get_batch_policy.py:21-42 | exactly three kinds of device have a policy: one forbids B3 beside B7, two allow at most 14 and 9 EPCs |
| PolicyRules.ClassHasPolicy | src/pyhems/get_batch_policy.py:29-33 | a class is one with policies exactly if some manufacturer has one for it |
| PolicyRules.PlanRule | src/pyhems/get_batch_policy.py:45-93 | the batch fits the known limit and the policy's, holds no forbidden pair, and leaves an EPC for later only for one of these reasons |
| GetBatches.GetCapability.FixBatchCapacity | src/pyhems/runtime.py:836-846 | the stored limit becomes the smaller of the old and the new one |
| GetBatches.RunGetBatches | src/pyhems/runtime.py:698-834 | the loop refines the step function on every device: same verdict, values, limit, manufacturer code and requests |
| GetBatches.HandleReply | src/pyhems/runtime.py:750-833 | the branches after one request (stopped, not sent, none matched, some, all, all empty) are exactly one step |
| GetBatches.MatchProperties | src/pyhems/runtime.py:755-765 | the properties matched to the batch: the first listed for each requested EPC |
| GetBatches.StepProgresses | src/pyhems/runtime.py:727-833 | the loop's termination measure: an iteration aborts, shortens the queue, or keeps it and lowers the probe size |
| GetBatchTheorems.MatchedIsFirstListed | src/pyhems/runtime.py:755-765 | an EPC is matched exactly when it was requested and listed, with the property listed first for it |
| GetBatchTheorems.RequestBound | src/pyhems/runtime.py:727-833 | for any device, policy, starting limit and interference: at most ceil(log2 N) halvings and ceil(log2 N) + N requests; without probing no halvings and at most N requests |
| GetBatchTheorems.AdvancePotential | src/pyhems/runtime.py:773-833 | min(queue length, limit, probe size) never grows, and a halving at least halves it, rounded up |
| GetBatchTheorems.CeilLog2IsLeast | docs/adr/0004-halve-get-on-timeout.md:31 | the logarithm of the bound is the least exponent whose power of two reaches N |
| GetBatchTheorems.Conservation | src/pyhems/runtime.py:727-833 | however a run ends, each requested EPC is either still queued or was retired by exactly one exchange whose reply listed it, with the value brought; on a finished run none is queued; nothing else changes |
| GetBatchTheorems.LimitDiscipline | src/pyhems/runtime.py:731-846 | every request is duplicate-free and within the limit, probe size, policy cap and pairs in force; the limit never grows; each limit a request was planned from, and the final one, is the initial one or was witnessed by then, by a reply with that many requested EPCs or by another call; without probing the run never writes it |
| ExchangeRules.RunFollowsRules | src/pyhems/runtime.py:727-833 | in every run: with n EPCs asked for and m listed, whether the read is given up and why, the batch halved, or the listed EPCs done with; the next limit is the least of the one before, what others stored and what was learned; the next size to try; the run goes on until all is done or a request ends it |
| ExchangeRules.IterationFollowsRules | src/pyhems/runtime.py:750-833 | the same for one iteration, with the queue afterwards: the EPCs not done with, in order, then the rest |
| ExchangeRules.KnownLimitIsKept | src/pyhems/runtime.py:813-833 | from a known limit c, any device that lists what it is asked for, blank or not: exactly ceil(N/c) requests, no halving, and the limit stays |
| ExchangeRules.DedupeKeepsFirst | src/pyhems/runtime.py:727 | the queue starts with the first occurrences in order |
| FirstValues.FirstOfferIsKept | src/pyhems/runtime.py:755-833 | for every run and every EPC not known beforehand: if an exchange is the first to offer a value for it, its first non-empty value is the one kept exactly when the reply lists no empty value before it; without an offer no value is kept |
| FirstValues.OfferIsLost | src/pyhems/runtime.py:755-765 | a reply listing an EPC empty and then with a value: the read finishes without the value |
| FirstValues.OfferIsSetAside | src/pyhems/runtime.py:813-827 | the same with every first listing empty and no limit known: the batch is halved and queued again |
| GetBatchAccuracy.LearnsThreshold | src/pyhems/runtime.py:773-833 | a device that ignores or blanks requests over L: setup over N > L EPCs reads all, fixes c with c <= L < 2c, and the number of requests is given exactly |
| GetBatchAccuracy.LearnsTruncation | src/pyhems/runtime.py:773-833 | a device that returns only the first L: setup fixes exactly L with exactly ceil(N/L) requests and reads all |
| GetBatchAccuracy.ReadsAtOnce | src/pyhems/runtime.py:773-833 | at most L EPCs take one request; the limit becomes N when N > 1 and stays unset for one EPC |
| GetBatchAccuracy.LearnedIsWithinFactorTwo | src/pyhems/runtime.py:773-833 | repeated halving, rounded up, stops at a size c with c <= L < 2c |
| GetBatchAccuracy.BoundIsAttained | docs/adr/0004-halve-get-on-timeout.md:31 | a device that answers single EPCs only needs exactly ceil(log2 N) + N requests, the documented 32 for 27 EPCs, so the bound is tight |
| GetBatchAccuracy.ProbeAndRead | src/pyhems/runtime.py:773-833 | from any point of a probing run with nothing known: how many halvings and chunks follow, what is stored, and that everything is read |
| RepeatedReads.EverySetupReadsAll | src/pyhems/runtime.py:535-599 | over any sequence of setups and plain reads of a device that ignores, blanks or truncates requests over L, with any losses, aborted calls, policies and true limits stored by others: the stored limit is at most L and never grows, and every setup that finishes has read all its EPCs |
| RepeatedReads.AccurateIsHonest | src/pyhems/runtime.py:773-833 | the devices of the accuracy theorems are among those |
| RepeatedReads.ReadsFromStoredLimit | src/pyhems/runtime.py:731-833 | from a stored limit c of at most L, setup of a device that answers takes exactly ceil(N/c) requests, never halves, keeps c and reads all |
| DeviceReads.ManufacturerIn | src/pyhems/runtime.py:652-696 | the manufacturer property used is a listed one of at least three bytes, and none is used only if there is no such property |
| DeviceReads.ReadManufacturerCode | src/pyhems/runtime.py:652-696 | one request for 0x8A; the code is stored exactly if it was found; a stop of the client ends the read with that error |
| DeviceReads.SetupGet | src/pyhems/runtime.py:535-599 | the result or the error (unreachable, no manufacturer, stopped, aborted), and the shared state left, for a reachable or unreachable node, with or without a known manufacturer |
| DeviceReads.Get | src/pyhems/runtime.py:402-458 | never fails; reads the manufacturer code first only where a policy for the class exists; returns what was read |
| ReadRules.IdentificationRule | src/pyhems/runtime.py:652-696 | reading the manufacturer code: one request for 0x8A, the first property that can hold a code gives it, big-endian; its errors; what is left |
| ReadRules.SetupIdentifies | src/pyhems/runtime.py:566-583 | setup reads the code exactly if it is not known, and keeps the property |
| ReadRules.GetIdentifies | src/pyhems/runtime.py:624-639 | a plain read does so only for a class with policies, and keeps it exactly if 0x8A is asked for |
| ReadRules.UnknownKeepsOrder | src/pyhems/runtime.py:641-645 | the loop is given the EPCs not yet known, in order |
| ReadRules.KnownIsReturned | src/pyhems/runtime.py:585-599 | an EPC known beforehand is never asked for again and is returned as known |
| ReadRules.SetupResultRule | src/pyhems/runtime.py:558-599 | each error of setup has its own reason; otherwise one entry per EPC |
| ReadRules.GetResultRule | src/pyhems/runtime.py:430-458 | a plain read never fails and returns empty what was not read |
| DeviceReads.ReadIsFaithful | src/pyhems/runtime.py:592-599 | one entry per requested EPC in the requested order, each what the one reply that retired it listed first, or empty; all retired on a finished run; at most 1 + ceil(log2 N) + N requests |
| NodeRequestQueue.RequestQueue.BeginAcquire | src/pyhems/runtime.py:191-198 | takes an idle slot, or queues the request with the next sequence number |
| NodeRequestQueue.RequestQueue.ReleaseSlot | src/pyhems/runtime.py:206-213 | the loop hands the slot to the first waiter still waiting, dropping dead entries, or frees it |
| NodeRequestQueue.RequestQueue.EndAcquire | src/pyhems/runtime.py:199-204 | resuming in each phase, including a slot granted just before the cancellation being passed on |
| NodeRequestQueue.RequestQueue.FailWaitingRequests | src/pyhems/runtime.py:215-220 | fails exactly the futures still pending and empties the heap |
| SlotRuns.HandOverSpec | src/pyhems/runtime.py:206-213 | a release skips exactly the dead entries in front and grants the first live one; the slot is freed exactly if there is none |
| SlotRuns.SlotIsOneToken | src/pyhems/runtime.py:186-220 | over every interleaving: busy exactly when one request, and only one, holds the slot or has been granted it; nobody waits for a free slot; after a stop at most one owner, and exactly when `_busy` is wrong |
| SlotRuns.StrayReleaseHappens | src/pyhems/runtime.py:200-204 | a run in which a failed queue says free while a request holds its slot |
| SlotRuns.GrantsLeastWaiter | src/pyhems/runtime.py:206-213 | whoever is granted has the least (priority, sequence) of all live waiters |
| SlotRuns.OvertakenOnlyByPriority | src/pyhems/runtime.py:191-213 | over whole runs a waiter is overtaken only by later arrivals of strictly higher priority |
| SlotRuns.WaitIsBounded | src/pyhems/runtime.py:191-213 | over whole runs: since it asked, a waiting request has seen at most as many hand-overs as there were live waiters before it, plus later arrivals of higher priority |
| SlotRuns.NextInLineIsGranted | src/pyhems/runtime.py:206-213 | with no live waiter before it, a request is the one the next hand-over grants |
| SlotOutcomes.AcquireOutcome | src/pyhems/runtime.py:191-198 | the slot is given at once exactly when nobody owns it |
| SlotOutcomes.CancelOutcome | src/pyhems/runtime.py:199-204 | what cancelling makes of a waiting, a granted and a failed request; nobody else is affected |
| SlotOutcomes.WakeOutcome | src/pyhems/runtime.py:199-204 | only a granted request goes on to hold the slot; one granted and cancelled passes it on |
| SlotOutcomes.FinishOutcome | src/pyhems/runtime.py:206-213 | a release gives the slot to one of those who wait, or to nobody exactly if nobody waits |
| SlotOutcomes.StopOutcome | src/pyhems/runtime.py:215-220 | stopping fails exactly those who wait |
| SlotOutcomes.CancelledNeverHolds | src/pyhems/runtime.py:191-213 | in every run a request cancelled before it holds the slot never holds it nor waits again |
| TransactionIds.Allocator.NextTransactionId | src/pyhems/runtime.py:349-355 | the loop returns the first free ID in counter order, or fails, and leaves the counter there |
| TransactionIds.FoundIsFirstFree | src/pyhems/runtime.py:349-355 | an ID found is free and all before it in counter order are in use; on failure all tried are in use |
| TransactionIds.LapVisitsEachOnce | src/pyhems/runtime.py:349-355 | 65535 steps from any counter value visit each ID exactly once |
| TransactionIds.AllocationIsSound | src/pyhems/runtime.py:349-355 | the ID is in 1..65535 and free; allocation fails exactly when all 65535 are pending |
| RequestClient.HemsClient.ProcessResponse | src/pyhems/runtime.py:1159-1173 | a frame removes and resolves exactly the entry whose TID, ESVs, address and EOJs it matches, and nothing otherwise |
| RequestClient.HemsClient.SendRequest | src/pyhems/runtime.py:1391-1411 | finds or creates the node's queue, enters it, and sends if the slot is free |
| RequestClient.HemsClient.TransmitRequest | src/pyhems/runtime.py:1395-1411 | allocates a TID, registers the request and sends it; leaves at once when no TID is free or sending fails |
| RequestClient.HemsClient.ResumeRequest | src/pyhems/runtime.py:1394-1411 | resuming in `acquire`: sends if the slot was granted, passes it on or leaves otherwise |
| RequestClient.HemsClient.Finish | src/pyhems/runtime.py:1422-1427 | removes the TID, releases the slot, forgets the queue exactly if it is idle |
| RequestClient.HemsClient.DrawTransactionId | src/pyhems/runtime.py:383-395 | a probe, or a frame sent without a TID, takes one that is not pending and registers nothing |
| RequestTable.StepKeeps | src/pyhems/runtime.py:1391-1427 | every step keeps the invariant that ties slots held, requests in flight and table entries to one another |
| RequestTable.OneRequestPerNode | src/pyhems/runtime.py:1391-1427 | over every interleaving of a session, with TIDs drawn by others at any time, at most one table entry and one request in flight per address |
| RequestTable.ResponsesBelong | src/pyhems/runtime.py:1161-1237 | in every session a frame a request returns matches its TID, source address, swapped EOJs and expected ESVs; no frame is returned by two requests |
| RequestOutcomes.MatchingResponseIsDelivered | src/pyhems/runtime.py:1161-1173 | in every session a frame with the TID, address, swapped EOJs and an expected service of an entry resolves its request with exactly that frame and removes the entry; if one of the conditions fails nothing changes |
| RequestOutcomes.UnknownTidIsIgnored | src/pyhems/runtime.py:1161-1163 | a frame whose TID has no entry changes nothing |
| RequestOutcomes.BeginOutcome | src/pyhems/runtime.py:1391-1411 | a request that finds the slot unowned is sent under a free TID, if a TID is free and sending works, and leaves unanswered otherwise; one that finds it owned waits |
| RequestOutcomes.ResumeOutcome | src/pyhems/runtime.py:1394-1411 | a request that resumes is sent exactly if it had been granted the slot |
| RequestOutcomes.EndOutcome | src/pyhems/runtime.py:1413-1427 | ending returns the response delivered or none, takes out the TID, passes the slot on; the queue stays exactly if somebody waits |
| RequestTable.NobodyIsStranded | src/pyhems/runtime.py:1391-1427 | in every session a waiting request stays in line at its node's registered queue until its own task resumes or is cancelled, and meanwhile some request of the node is in flight and can end, or was granted the slot and can resume |
| RequestTable.BeginWaitsOrSends | src/pyhems/runtime.py:1391-1394 | a request is in line after asking for the slot exactly if the node's queue was not idle |
| RequestTable.EndDropsAnother | src/pyhems/runtime.py:1422-1424 | in every session a request's end removes another's entry exactly when its TID is pending for another, which is then left in flight without an entry |
| RequestTable.EntriesAreOwn | src/pyhems/runtime.py:1391-1427 | until the counter laps an answered request that has not resumed: every unanswered request in flight has its own entry, TIDs in flight are distinct, and no end removes another's entry |
| RequestTable.OrphanStays | src/pyhems/runtime.py:1161-1173 | a request that has lost its entry stays unanswered, whatever arrives, until it ends |
| RequestTable.DropHappens | src/pyhems/runtime.py:1422-1424 | a session in which a request's end takes the entry of another |
| ValueDecoder.ObjectFollowsGrammar | src/pyhems/codecs.py:668-705 | an object decodes exactly if some choice of widths fills the chunk; it uses the lexicographically first, and its fields are decoded from slices that tile the chunk |
| ValueDecoder.ObjectSuccessByLength | src/pyhems/codecs.py:668-705 | whether an object decodes depends only on the number of bytes |
| ValueDecoder.OneOfIsFirstDecodable | src/pyhems/codecs.py:659-666 | a oneOf is its first option that decodes, and none only if none does |
| ValueDecoder.ItemsTile | src/pyhems/codecs.py:707-724 | the i-th item of an array is decoded from the i-th slice of the item size |
| ValueDecoder.FixedSizeIsSound | src/pyhems/codecs.py:560-576 | if a fixed width is computed, whatever decodes has that width, through nested oneOfs and objects |
| ValueDecoder.FixedObjectIsExact | src/pyhems/codecs.py:560-576 | an object of fixed width decodes exactly from chunks of that width |
| ValueDecoder.FixedField | src/pyhems/codecs.py:616-625 | a definition of fixed width has that width as its only option |
| DecoderRules.ScalarRule | src/pyhems/codecs.py:579-613 | a scalar is decoded from exactly its size in bytes, if they mean anything |
| DecoderRules.ArrayRule | src/pyhems/codecs.py:707-724 | an array is decoded exactly from a whole number of items within its bounds, bounds included, to that many items, each from its own slice |
| DecoderRules.PlainObjectRule | src/pyhems/codecs.py:668-705 | an object without arrays is decoded exactly if some choice of widths adds up to the chunk |
| DecoderRules.TrailingArrayRule | src/pyhems/codecs.py:668-715 | an object ending in an array is decoded exactly if some choice of widths leaves a whole number of items within the bounds |
| DecoderRules.InnerArrayRule | src/pyhems/codecs.py:675-677 | an array that is not the last field makes the object undecodable |
| DecoderRules.FixedSizeRule | src/pyhems/codecs.py:560-576 | exactly which definitions have a fixed width, and which |
| DecoderRules.SizeOptionsRule | src/pyhems/codecs.py:616-625 | the widths tried for a field, in order |
| DeviceManagerObject.ManagerObject.EnqueueNodeJob | src/pyhems/device_manager.py:628-636 | appends the job and starts a job task exactly if the node has none |
| DeviceManagerObject.ManagerObject.StartNextJob | src/pyhems/device_manager.py:638-650 | the loop takes the first job and runs it up to its first await |
| DeviceManagerObject.ManagerObject.EndNodeJobs | src/pyhems/device_manager.py:650-656 | the task's end removes its queue, itself and the frames of the node's unregistered objects |
| DeviceManagerObject.ManagerObject.ProcessFrameEvent | src/pyhems/device_manager.py:830-868 | a frame is applied, deferred or dropped; the result is true exactly if a value other than the cached one was applied |
| DeviceManagerObject.ManagerObject.ApplyFrameTo | src/pyhems/device_manager.py:870-899 | stores the values of frames that carry any and enqueues range initialization if one is unset; the result is true exactly if it listed a value other than the cached one |
| DeviceManagerObject.ManagerObject.StoreProperties | src/pyhems/device_manager.py:887-891 | the loop that writes only differing values leaves the cache as if all were written, and its result is exactly the EPCs listed with a value other than the cached one |
| DeviceManagerObject.ManagerObject.ApplyDeferredFrames | src/pyhems/device_manager.py:901-904 | applies the kept frames in order and keeps none |
| DeviceManagerObject.ManagerObject.ApplyAcceptedProperties | src/pyhems/device_manager.py:516-532 | caches exactly the accepted properties, in order, and returns the EPCs accepted with a value other than the cached one |
| DeviceManagerObject.ManagerObject.RecoveryProperties | src/pyhems/device_manager.py:238-274 | the ranges to write: one per binding whose list is unset and untried |
| DeviceManagerObject.ManagerObject.ContinueDiscovery | src/pyhems/device_manager.py:920-932 | skips objects that are known or being set up and begins the next |
| DeviceManagerObject.ManagerObject.RegisterRead | src/pyhems/device_manager.py:1051-1055 | registers the snapshot, applies the kept frames, begins range initialization |
| DeviceManagerObject.ManagerObject.EndSetup | src/pyhems/device_manager.py:920-967 | the end of a setup unmarks the object and goes on with the next instance |
| DeviceRuns.JobsRunInOrder | src/pyhems/device_manager.py:628-656 | over every run: at most one task per node, waiting jobs imply a task, jobs start in the order of enqueueing, each once, and none is lost when a task ends |
| DeviceRuns.JobsNeverBlock | src/pyhems/device_manager.py:824-828 | a waiting job can always be started and an acknowledged range applied: the objects stay registered |
| DeviceRuns.DeferredNeverLeaks | src/pyhems/device_manager.py:650-656 | frames are kept only for unregistered objects of nodes whose task runs, at most 64 |
| DeviceRuns.KeptFrames | src/pyhems/device_manager.py:855-862 | the frames kept for an object are the first 64 that arrived for it since the node's task began |
| DeviceRuns.CacheFollows | src/pyhems/device_manager.py:870-899 | from registration on a cache is the fold of the frames, acknowledged ranges and accepted sets for it, in order |
| DeviceRuns.DeferralIsInvisible | src/pyhems/device_manager.py:1053-1055 | at any later moment a cache is the setup snapshot, the first 64 deferred frames, then everything since registration, in the order of arrival |
| DeviceRuns.NoFrameIsLost | src/pyhems/device_manager.py:855-904 | with at most 64 frames during setup, the cache is the snapshot with all of them applied, then everything since |
| DeferralCap.ApplyListsLast | src/pyhems/device_manager.py:887-891 | applying frames leaves for each EPC the last value that a value frame lists, or what was there |
| DeferralCap.RegisteredAsIfUncapped | src/pyhems/device_manager.py:855-904 | in every run, for each EPC: the value at registration is that of the snapshot with all frames applied exactly if no dropped value frame lists the EPC or the last one dropped lists the value held anyway |
| DeferralCap.StaleValueReplacesRead | src/pyhems/device_manager.py:855-862 | 65 frames that leave an empty value where both the snapshot and the last frame have one |
| ManagerOutcomes.FrameOutcome | src/pyhems/device_manager.py:870-899 | in every run: a Get_Res, Get_SNA, INF or INFC for a registered object leaves for each EPC the last value it lists, or what was there; any other service changes nothing |
| ManagerOutcomes.DeferOutcome | src/pyhems/device_manager.py:842-866 | a frame for an unregistered object is kept exactly if it is no request, the node's task runs and fewer than 64 are kept |
| ManagerOutcomes.SetOutcome | src/pyhems/device_manager.py:516-532 | a set caches the last value requested exactly for the EPCs accepted |
| ManagerOutcomes.RangeRule | src/pyhems/device_manager.py:238-274 | a range is written for a binding exactly if its list is unset and untried; it runs from channel 1 over all channels, up to the maximum |
| ManagerOutcomes.RangesRule | src/pyhems/device_manager.py:238-274 | the ranges written for an object are those of its bindings |
| ManagerOutcomes.FrameQueues | src/pyhems/device_manager.py:893-896 | a value frame that leaves a list unset queues its initialization at the node; no other frame queues anything |
| ManagerOutcomes.RangeJobWrites | src/pyhems/device_manager.py:787-802 | a range job writes the ranges unset and remembers their selectors; with none it is over |
| ManagerOutcomes.SetupWrites | src/pyhems/device_manager.py:1051-1057 | a setup that has read its object applies the frames kept, writes the ranges unset, or goes on to the notification |
| ManagerOutcomes.AcknowledgedGoesOn | src/pyhems/device_manager.py:1057-1058 | after the acknowledgement a setup goes on to the notification, a range job is over |
| ManagerOutcomes.TaskEnds | src/pyhems/device_manager.py:650-656 | the end of a node's task removes it and the frames kept for the node's unregistered objects, and only those |
| ManagerOutcomes.DiscoveryQueues | src/pyhems/device_manager.py:599-620 | an instance list queues a discovery job behind those that wait, with a task to run it |
| ManagerOutcomes.DiscoveryStarts | src/pyhems/device_manager.py:920-930 | a discovery job sets up the first instance that is not known |
| ManagerOutcomes.SetupEnds | src/pyhems/device_manager.py:920-967 | when a setup ends, the task goes on with the first unknown instance after it |
| DeviceRuns.SelectorsWrittenOnce | src/pyhems/device_manager.py:778-802 | across setup and all jobs no range selector is written twice for a device object |
| DeviceRuns.RangesAreFresh | src/pyhems/device_manager.py:238-274 | the ranges of one write have distinct selectors, none tried before, if the class's bindings have distinct selectors |
| DeviceRuns.ShippedRegistryIsOk | src/pyhems/_definitions_generated.py:2005-2014 | the collection bindings shipped with pyhems have distinct selectors |
| Subscriptions.SubscriptionRegistry.SubscribeEpcs | src/pyhems/device_manager.py:658-686 | raises the counts of the EPCs, marks the device as subscribed |
| Subscriptions.SubscriptionRegistry.Call | src/pyhems/device_manager.py:688-701 | the first call of an unsubscribe function lowers the counts and drops those that reach zero; later calls do nothing |
| Subscriptions.CountsAreActive | src/pyhems/device_manager.py:682-701 | after any sequence of calls each count is the number of active subscriptions containing the EPC; no zero is stored |
| Subscriptions.EffectiveIsUnionOfActive | src/pyhems/device_manager.py:768-776 | the EPCs polled are the candidates in some active subscription, or all of them before the first subscription |
| Poller.MakeConfig | src/pyhems/poller.py:139-147 | after clamping: 1 <= poll interval <= maximum interval, fast interval and safety factor at least 1 |
| Poller.IntervalBounds | src/pyhems/poller.py:334-383 | the normal wait is between the poll interval and the maximum; the fast wait between the smaller base and the normal wait |
| Poller.IntervalMonotone | src/pyhems/poller.py:334-383 | more failures or a higher latency never shorten either wait |
| Poller.LatencyStaysInRange | src/pyhems/poller.py:385-394 | the smoothed latency stays within the range of the latencies observed |
| Poller.DeviceScheduleState.UpdateLatency | src/pyhems/poller.py:385-394 | the estimate becomes the weighted mean of the new latency and the old estimate |
| Poller.DeviceScheduleState.SchedulePoll | src/pyhems/poller.py:239-263 | one tick for a device: which tiers are due, what is requested, what is recorded |
| Poller.DeviceScheduleState.FirePoll | src/pyhems/poller.py:265-298 | starts a cycle exactly if something is to be requested, and stamps the tiers included |
| Poller.CyclesAreSpaced | src/pyhems/poller.py:233-298 | over every run with a clock that does not go back: cycles never overlap; normal-tier starts are at least the poll interval apart, fast-tier starts at least the smaller base apart |
| Poller.DueAfterMaxInterval | src/pyhems/poller.py:239-298 | backing off never starves a tier: after the maximum interval the next tick starts a cycle for it, unless one runs or nothing is subscribed |
| PollRules.TickRule | src/pyhems/poller.py:239-298 | a tick starts a cycle of exactly the tiers whose turn it is, by elapsed time, latency and unanswered polls, if none runs and something is subscribed; it requests just that and restarts just those waits |
| PollRules.CyclesBackOff | src/pyhems/poller.py:334-383 | in every run a cycle of a tier starts only when enough time has passed since every earlier one, given the latencies answered and the polls unanswered by then |
| PollRules.SilenceDoublesTheWait | src/pyhems/poller.py:351-357 | after f unanswered polls normal-tier starts are at least min(maximum, base * 2^min(f, 10)) apart |
| PollRules.ThreeUnanswered | src/pyhems/poller.py:351-357 | an example: after three unanswered polls a minute becomes eight |
| PollRules.ConfigRule | src/pyhems/poller.py:139-147 | the constructor raises what is too small and keeps everything else |
| PollRules.SmoothingRule | src/pyhems/poller.py:385-394 | each answer moves the estimate three tenths of the way to its latency |
| PollCycle.CycleEndsOnlyFor | src/pyhems/poller.py:307-327 | a cycle ends when all was requested, when the device is gone, or with a request not answered, and for no other reason |
| PollCycle.RunCycle | src/pyhems/poller.py:300-332 | the loop sends exactly the chunks of the step function and leaves its latency and failures |
| PollCycle.ChunksPartition | src/pyhems/poller.py:306-332 | the chunks and what was not requested make up the EPCs of the cycle; every chunk is legal when sent; only the last can be unanswered |
| PollCycle.CycleRecords | src/pyhems/poller.py:320-332 | latencies are folded in order; failures are cleared by an answer and raised by one by an unanswered chunk; availability is the last outcome |
| PollCycle.CycleLength | src/pyhems/poller.py:306-332 | with capacity c and n EPCs: exactly ceil(n/c) chunks without an incompatible pair, at most one more with one |
| PollCycle.ExtraRequestIsNeeded | src/pyhems/get_batch_policy.py:21-29 | the extra chunk occurs: the pair alone takes two requests |
| PollCycle.PairLeavesOne | src/pyhems/get_batch_policy.py:45-93 | with one incompatible pair, a batch that is not full leaves at most one EPC |
| FrameCodec.Encode | src/pyhems/frame.py:103-119 | the loop prints every encodable frame and fails on exactly the others |
| FrameCodec.Decode | src/pyhems/frame.py:70-100 | the loop with its moving offset computes the recursive parser, with the same error for each malformed input |
| FrameLayout.EncodingRule | src/pyhems/frame.py:103-119 | which frames can be written, and every byte of the datagram |
| FrameLayout.DecodingRule | src/pyhems/frame.py:69-100 | why a datagram is refused, in the order of the checks, and what an accepted one says |
| FrameCodec.DecodeAfterEncode | src/pyhems/frame.py:69-119 | decoding an encoded frame, with anything appended, gives the frame back |
| FrameCodec.EncodeAfterDecode | src/pyhems/frame.py:69-119 | for every accepted input the encoding of the result is a prefix of the input |
| FrameCodec.AcceptsExactlyEncodings | src/pyhems/frame.py:69-119 | an input decodes to f exactly if f is encodable and its encoding is a prefix of the input |

## Left out

- RequestTable and RequestClient cover one session. `stop` is modelled only for the queues (`SlotRuns`); restarting a client after it is not modelled.
- RequestTable.MatchesRequest: frames of request services are discarded before matching (src/pyhems/runtime.py:1150-1159); no request expects one, so this is not modelled.
- RequestClient: futures are ghost, and the queue a coroutine captured is taken to be the registered one, which the run invariant guarantees within a session.
- DeviceManagerObject: `NodeState` objects are values in the `data` map, so aliasing of a node between tasks is not modelled; every method reads it by key.
- DeviceManager: points where one job ends and the next begins are treated as interleaving points, which allows more runs than the event loop does. Shutdown, listeners, activity timestamps, refreshes after a set and the property maps read during setup are left out.
- DeviceRuns.SelectorsWrittenOnce: needs distinct selectors among the bindings of a class, which the shipped registry has (`DeviceRuns.ShippedRegistryIsOk`).
- Poller: removal of the state of devices that disappear; a run is one lifetime of a device's state.
- PollCycle: what else the manager does with a response.
- Subscriptions: device keys are opaque.
- ValueDecoder: `_decode_collection`, scalar codecs (uninterpreted), encoders. Indices and cursors of `decode_fields` appear as suffixes of the field list and the chunk.
- FrameCodec: sockets, and which ESVs are requests or responses beyond what the other modules use.
- DeviceReads: notification requests (`INF_REQ`), the split of a SetC result into accepted and rejected EPCs.
- UDP transport, multicast discovery, replay of frames from unknown addresses, logging, real clocks, float rounding.
- Installation location, ASCII fields, enum and binary codecs, scripts and generated tables: finite or one-branch facts.
