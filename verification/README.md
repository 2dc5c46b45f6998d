# Verified model of src/common

The common runtime of iot-app-fw is a set of in-place data structures and of
dispatch loops that call back into themselves. Each makes a promise that only an
invariant over all its operations can keep. This project models that code and
proves the promises, for every input, every run and every tree of callbacks.

| module | component |
|---|---|
| HashLog, HashOrder, HashTurns, HashSlab, HashWalk, HashTable, HashView, HashRun | the slab-backed hash table with its shared, deletion-safe iterator, against a list of entries in order of insertion |
| MaskSpec, Mask | bitmasks of 64-bit words, against sets of indices |
| Rings | circular lists in the heap, against sequences |
| Timers | the sorted timer list, the sleep bound, dispatch with re-entrant callbacks |
| IoWatch | I/O watches that share descriptors, the fd table and what epoll is told |
| EventBus | nested synchronous emission with delayed deletion, act by act; the event queue and its pump |
| PoolSize, ObjPool | object pool arithmetic; chunks with two-level masks |
| MemDump | the debugging allocator's totals and its dump |
| Path, Mkdir | path normalisation; all-or-nothing directory creation |
| Fragbuf | length-prefixed messages in arbitrary chunks |
| Transport | delayed release of a transport under nested calls |
| Seqs | sequence vocabulary shared by the above |

Objects whose fields the code updates are classes with those fields; each method
is proved against a function of the old state, or states the new state outright.
Lists are sequences of identifiers (Rings shows the pointer form), identifiers are
never used again. What a callback does is a parameter, any finite tree of the
operations it may perform. Memory, the clock, the file system and epoll are
parameters too: allocation and system calls may fail where the code checks, the
clock never runs backwards, epoll is a map from descriptors to event masks.

## Where the code and its promises differ

Each is proved as the exact condition under which the promise holds.

- Hash table: deleting by cookie under a key of another bucket can leave an empty
  bucket on the used list, and iteration then never gets past it
  (hash-table.c:614-666, 807-834). A replace that finds nothing for its cookie
  stores the entry in a slot that its mask does not mark (705-758).
- Hash table: adding can lose a slot when the bucket array cannot be allocated
  (590-606).
- Hash table: the end of an iteration, and an iterator call with an outdated
  generation, clear the stored direction (815-829). A deletion of the current entry
  then steps forward, so that an iteration in progress passes over an entry.
- Timers: `msecs * 1000` is a 32-bit product; some long intervals come out as 0. A
  callback that restarts the timer the dispatch loop has saved as the next one ends
  the round with other timers still due (mainloop.c:1674-1693).
- I/O watches: when epoll refuses the change after a deletion the watch is marked
  all the same, and epoll goes on reporting what nobody wants (464-504).
- Object pool: only chunks of 16 mask words are ever found empty; slots are aligned
  to four bytes only when the number of mask words is even, which includes the
  smallest slots; a refused setup leaves the count of objects one short. Objects
  larger than the chunk size less 40 bytes make creation divide by zero. The first
  chunk of a pool shifts too far when it has more than 31 mask words, as with small
  objects and 64 KiB pages; that may be at creation or at the first allocation.
- Masks: the `below` functions leave out the last bit for an index past the end; a
  range that starts past the end changes two bits; iterating over set bits reads
  past the words when the very last bit is set; `iot_mask_test` does not see bits
  that `iot_mask_alloc` took beyond nbit; resetting a fixed or inlined mask clears
  its first word only.
- Lists: moving an empty list leaves the new hook pointing at the old one.
- Memory dump: a group with 4 GiB besides its head keeps the excess in the head.
- Normaliser: a component that is opened and closed behind a second climb above the
  root indexes the backtrack array out of bounds, and so does a path of more
  directories than the array has entries; a result can have that many when the path
  climbed first, and then it cannot be normalised again.
- mkdir: a directory that could not be labelled is left behind.
- Fragment buffer: an empty message that ends the buffer behind another message is
  held back; EAGAIN leaves the bytes claimed for reading in the buffer; the size
  test is signed, so a header of 0x7ffffffc or more is accepted with no such message
  in the buffer.

## Model

| member | source | states |
|---|---|---|
| HashRun.Run | src/common/hash-table.c:546-852 | n calls of any client, each of which may depend on all answers so far: adds, lookups, deletions, replacements and iterations, with any keys and with or without cookies, cannot be told from the same run on the view, a list in order of insertion with what the iteration in progress has still to visit, each bucket in the order of insertion; for every client that minds which bucket a cookie belongs to and which iteration is in progress; chunk memory may fail at any call |
| HashRun.Call | src/common/hash-table.c:546-852 | one call: the table is sound afterwards exactly under Keeps, and then the call is a step of the view |
| HashRun.FairKeeps | src/common/hash-table.c:614-758 | the client's care with entries is exactly what keeps the table sound, but for a replacement by a dead cookie that finds no slot to store the entry in |
| HashView.Conserved | src/common/hash-table.c:546-852 | along any run: an entry that is left alone is visited as often as it was to be visited and no more is, whatever is added, deleted and replaced between the steps of the iteration |
| HashView.VisitedOnce | src/common/hash-table.c:761-852 | from the beginning of an iteration to its end, every entry that was there and is left alone is visited exactly once, whatever other calls come between |
| HashView.InsertionOrder | src/common/hash-table.c:761-852 | of two entries of one bucket that are there when an iteration begins and are left alone, a forward iteration has visited the one added first when it comes to the other, and a backward one the one added last, whatever other calls come between |
| HashView.NeverAgain | src/common/hash-table.c:614-852 | after the call that removed it an entry is not visited by any iteration, until an entry is added under its cookie again |
| HashRun.Issued | src/common/hash-table.c:614-702 | what is found under a key and cookie is what a deletion by that cookie removes, in the bucket of the key |
| HashRun.PassedOver | src/common/hash-table.c:648-655 | in every table of three entries or more: once an outdated call has cleared the stored direction, deleting the first entry makes the iteration pass over the second, which is live |
| HashTable.Table.Add | src/common/hash-table.c:546-611 | a new entry goes to the end of the insertion-ordered list under a fresh cookie; forward it is then visited last if its bucket was unused, and right behind the last entry of its bucket otherwise, backward the other way round, and all others keep their order; it is refused exactly at the limit, without memory for a chunk, or without a bucket array; the table stays sound unless the bucket array fails after the slot was taken; an iteration in progress loses and repeats nothing |
| HashTable.Table.AddAt | src/common/hash-table.c:546-611 | a caller-chosen cookie takes a slot without marking it, also one in use; the table stays sound exactly if nothing was stored, which Stores tells |
| HashTable.Table.Del | src/common/hash-table.c:614-666 | removes the earliest match, or the entry of the cookie whatever the key, and all others keep their order; the table stays sound exactly if the key falls into the entry's bucket or that bucket keeps another entry; what an iteration in either direction has still to visit is then what it was after the step against the stored direction, without the entry |
| HashTable.Table.Undisturbed | src/common/hash-table.c:648-655 | that is what was to be visited without the entry, exactly unless the iterator stands on it, the stored direction makes it step on instead of back, and there are other entries |
| HashTable.Table.Lookup | src/common/hash-table.c:669-702 | returns the object of the earliest added match, and of the entry of the cookie only if that entry has the key |
| HashTable.Table.Replace | src/common/hash-table.c:705-758 | rebinds the matching entry in place, keeping its cookie and its place in the order; sound exactly if the new key is of the same bucket; an iterator on it steps against the stored direction; on a miss without a cookie it adds exactly when an add would, at the end, and an iteration goes on as after an add; with a cookie it is sound exactly if nothing was stored |
| HashTable.Table.HashEntry | src/common/hash-table.c:407-450 | the walk along one bucket finds the first match of the whole insertion-ordered list |
| HashTable.Table.Begin | src/common/hash-table.c:761-767 | the iteration starts with every live entry still to visit, each once; forward, entries of one bucket come in the order in which they were added, backward the other way round |
| HashTable.Table.Iter | src/common/hash-table.c:770-852 | yields exactly the head of what is still to visit and keeps the rest, in the direction asked for: of one bucket the entry added first comes first when that is forward; the end, and a call with an outdated generation, reset the shared iterator and clear its stored direction |
| HashTable.Table.VisitsInTurn | src/common/hash-table.c:807-834 | at any time what is still to visit, and all there is, has the entries of each bucket in the order of the list in which they were added, or in the reverse order for a backward iteration |
| HashTable.Table.PendingLive | src/common/hash-table.c:770-852 | what is still to visit is live, each entry once, and the current one is not among it |
| HashTable.Table.Retreat | src/common/hash-table.c:648-655 | before the entry under the iterator goes, the iterator steps against the stored direction, and forward if that was cleared |
| HashTable.Table.Apply | src/common/hash-table.c:614-666 | any run of deletions by a loop body acts like the same deletions on the list and on the entries to visit |
| HashTable.Table.ForEach | src/common/hash-table.c:761-852 | for every loop body that deletes any entries: nothing is yielded twice or after its deletion, and a body that never stops the loop gets every entry it does not delete; the loop ends |
| HashTable.EmptyUsedBucket | src/common/hash-table.c:614-666 | the only entry deleted by its cookie with a key of the other bucket: the search for the next bucket repeats for ever |
| HashWalk.DeletionSafe | src/common/hash-table.c:770-852 | the guarantee of deletion-safe iteration, for every order of pending entries and every body |
| HashWalk.DropAllNext | src/common/hash-table.c:614-666 | each deletion a loop body asks for takes the earliest match of its key, or the entry of its slot, out of what the ones before it have left |
| HashWalk.ForeachDeletesCurrent | src/common/hashtbl.h:140-165 | deleting by key inside iot_htbl_foreach removes the entry being visited exactly if no earlier entry compares equal |
| HashLog.FirstIsEarliest | src/common/hash-table.c:407-450 | the match is the earliest added one: nothing in front of it matches, and there is none only if nothing matches |
| HashLog.FirstByCookie | src/common/hash-table.c:407-450 | with a cookie there is a match exactly if the live entry of that cookie has the key |
| HashLog.FirstInBucket | src/common/hash-table.c:407-450 | because equal keys hash equally, searching one bucket is searching the whole list |
| HashLog.BucketMembers | src/common/hash-table.c:278-298 | a bucket holds exactly the live entries that hash to it |
| HashLog.DropBucket | src/common/hash-table.c:614-666 | unlinking an entry from its bucket keeps all buckets in insertion order |
| HashLog.AppendBucket | src/common/hash-table.c:593-605 | linking at the tail of a bucket keeps insertion order |
| HashLog.RebindBucket | src/common/hash-table.c:740-757 | rebinding in place keeps the buckets right when the new key hashes alike |
| HashOrder.StepBack | src/common/hash-table.c:648-655 | stepping against the direction of travel, over bucket boundaries and off the front, makes exactly the current entry pending again |
| HashOrder.StepOff | src/common/hash-table.c:648-655 | what is pending after a step in any stored direction, in terms of both directions of travel |
| HashOrder.StepOn | src/common/hash-table.c:648-655 | stepping on instead of back moves the iterator to the next pending entry |
| HashOrder.AdvanceTakesHead | src/common/hash-table.c:770-852 | the walk over bucket lists and the list of used buckets takes the head of what is pending |
| HashOrder.NextBucketProgress | src/common/hash-table.c:807-834 | an empty bucket on the used list makes the search for the next bucket repeat for ever, and nothing else does |
| HashOrder.PendingUnlink | src/common/hash-table.c:657-664 | deleting any entry but the current one takes just it from what is pending, even when its bucket leaves the used list |
| HashOrder.PendingLink | src/common/hash-table.c:600-605 | an entry added during an iteration neither hides nor repeats a pending one |
| HashOrder.LinkUnlink | src/common/hash-table.c:600-666 | linking an entry and unlinking it again restores the lists |
| HashOrder.IterOrderFlip | src/common/hash-table.c:770-852 | the backward order is the forward order reversed |
| HashTurns.PendingInTurn | src/common/hash-table.c:807-834 | the same of bucket lists and used list that agree with the log |
| HashTurns.LaterInBucket | src/common/hash-table.c:593-605 | an entry added later stands further back in its bucket |
| HashTurns.LinkJoins | src/common/hash-table.c:600-605 | the first entry of an unused bucket ends a forward iteration and begins a backward one, one more entry of a used bucket comes next to the bucket's last; nothing else moves |
| HashTurns.FirstOfTwo | src/common/hash-table.c:830-836 | of two entries in one bucket the iterator gives the first one first forward, and the second one backward |
| HashOrder.PendingDistinct | src/common/hash-table.c:770-852 | no entry is pending twice |
| HashSlab.SizingFits | src/common/hash-table.c:102-155 | after one correction entries and inlined mask fit in a chunk; the strict closing assertion holds unless the corrected layout fills the chunk to the last byte |
| HashSlab.SizingOnLp64 | src/common/hash-table.c:102-155 | 101 entries per chunk on LP64 |
| HashSlab.CookieRoundTrip | src/common/hash-table.c:350-404 | cookie and chunk position determine each other |
| HashSlab.FreeSlot | src/common/hash-table.c:453-477 | while fewer slots are live than allocated some chunk with space has a clear bit in range |
| HashSlab.LiveBound | src/common/hash-table.c:453-503 | live slots never outnumber allocated ones |
| HashSlab.GrowOk | src/common/hash-table.c:192-275 | a new chunk keeps the masks equal to the live slots |
| HashSlab.TakeOk | src/common/hash-table.c:453-477 | setting the bit of a free slot keeps the masks equal to the live slots |
| HashSlab.ReleaseOk | src/common/hash-table.c:480-503 | clearing the bit of a live slot and relinking its chunk keeps the masks equal to the live slots |
| HashSlab.UnlinkFullOk | src/common/hash-table.c:453-477 | a chunk leaves the space list only when it is full |
| HashSlab.SearchOk | src/common/hash-table.c:453-477 | the lowest clear bit of the first chunk with space gives a slot that was not live, or the chunk is full |
| HashSlab.Slab.AllocateChunks | src/common/hash-table.c:192-275 | grows by full-sized chunks, with a short last one only up to the limit, which is never exceeded; succeeds exactly if chunk table and chunks can be had |
| HashSlab.GrownMeans | src/common/hash-table.c:202-225 | room for as many entries as asked for and for less than a chunk more, in whole chunks unless the limit is reached |
| HashSlab.Counted | src/common/hash-table.c:202-227 | the number of chunks allocated for so many entries is the least that holds them |
| HashSlab.Slab.CookieEntry | src/common/hash-table.c:370-404 | finds the slot of a cookie exactly if it is allocated, or within the limit and there is memory for the chunks up to it |
| HashSlab.Slab.AllocEntry | src/common/hash-table.c:453-477 | hands out a slot that was not live; fails only if every allocated slot is |
| HashSlab.Slab.FreeEntry | src/common/hash-table.c:480-503 | the slot is no longer live and its chunk is on the space list |
| Mask.Mask.Grow | src/common/mask.h:392-424 | growing keeps the set, from the word in the union to an array too, with the word put back when there is no memory; refused exactly for fixed or inlined masks that are too small, or when there is no memory for the words that are missing |
| Mask.Mask.Shrink | src/common/mask.h:438-466 | keeps the words that are left and loses the bits beyond them; fixed and inlined masks stay as they are; fails exactly if several words cannot be reallocated |
| Mask.Mask.Reset | src/common/mask.h:365-380 | a dynamic mask becomes empty with one word; of a fixed or inlined one only the first word is cleared |
| Mask.Mask.SetBit | src/common/mask.h:735-753 | adds exactly the bit, exactly if the mask is large enough or can be grown |
| Mask.Mask.ClearBit | src/common/mask.h:765-782 | removes exactly the bit if it is below nbit |
| Mask.Mask.Test | src/common/mask.h:792-805 | tells whether the bit is in the set and below nbit; a bit allocated beyond nbit is not seen |
| Mask.Mask.ChangeRange | src/common/mask.h:582-616 | set_range and clear_range (690-725) change exactly the bits from the smaller to the larger bound, over any number of words, cut off at the last bit; with both bounds past the end two single bits change |
| Mask.Mask.ChangeBelow | src/common/mask.h:551-568 | set_below and clear_below (658-677) change the bits below the given one; a bit past the end leaves the last bit out |
| Mask.Mask.ChangeAbove | src/common/mask.h:521-539 | set_above and clear_above (628-646) change exactly the bits above the given one, to the end of the last word |
| Mask.Mask.Next | src/common/mask.h:1052-1107 | with the bits in front of the start masked out of its word, next_set and next_clear give the least such index from an in-capacity start, or -1 |
| Mask.Mask.Alloc | src/common/mask.h:1120-1135 | adds the least absent index, or none if every bit of the words is set |
| Mask.Mask.ForEachSet | src/common/mask.h:1147-1150 | visits the set bits in order, each once; asks for an index that has no word exactly if the very last bit is set |
| Mask.Ffs | src/common/mask.h:1006-1014 | find-first-set by its specification: the least bit set, or -1 |
| Mask.OnSoughtFrom | src/common/mask.h:1061-1062 | the masks clr and set (1095-1096) leave exactly the bits looked for from the start on |
| Mask.OneBit | src/common/mask.h:735-782 | or-ing in or masking out one bit adds or removes one index |
| Mask.NextIn | src/common/mask.h:1052-1106 | one find-first-set settles one word |
| Mask.RangeDone | src/common/mask.h:582-616 | first, middle and last words together make up the range |
| Mask.RangeMeans | src/common/mask.h:582-616 | which bits these are, bound by bound |
| Mask.RangeBits | src/common/mask.h:582-616 | the mask for a range inside a word has exactly its bits |
| Mask.EndBits | src/common/mask.h:582-616 | the masks for the ends of a range have exactly their bits |
| Mask.IxOrder | src/common/mask.h:154-161 | bit indices as shift counts keep their order |
| Rings.Append | src/common/list.h:81-95 | the item becomes the last of the list |
| Rings.Prepend | src/common/list.h:98-113 | the item becomes the first of the list |
| Rings.InsertBefore | src/common/list.h:116-120 | appending to the ring seen from an item inserts in front of it |
| Rings.Delete | src/common/list.h:130-143 | the item leaves the list, the order of the others stays, the item is linked to itself |
| Rings.Move | src/common/list.h:146-155 | the new hook heads the items exactly if there are any; an empty list leaves it pointing at the old hook |
| Rings.Join | src/common/list.h:158-176 | the second list is appended to the first and left empty |
| Rings.ForEach | src/common/list.h:194-197 | visits every item once, in order, although the body unlinks current items; what it kept stays in order |
| Rings.Rotate | src/common/list.h:45-62 | a ring is a ring from any of its hooks |
| Rings.ListLinks | src/common/list.h:45-78 | ring order and prev/next links are the same statement |
| Timers.TimerList.InsertTimer | src/common/mainloop.c:655-694 | the timer goes in front of the first live one due no earlier, and next_timer becomes the first live timer |
| Timers.TimerList.RearmTimer | src/common/mainloop.c:697-702 | the timer expires its interval from now; order and next_timer are kept |
| Timers.TimerList.FindNext | src/common/mainloop.c:705-721 | next_timer is the first live timer, or none |
| Timers.TimerList.AddTimer | src/common/mainloop.c:735-757 | a new timer expires its interval from now and is in its place |
| Timers.TimerList.ModTimer | src/common/mainloop.c:760-768 | a live timer gets the new interval (or keeps its own) and is armed again; a deleted one is left alone |
| Timers.TimerList.DelTimer | src/common/mainloop.c:771-793 | the timer is marked, next_timer moves to the first live one left |
| Timers.TimerList.Purge | src/common/mainloop.c:1359-1380 | after the purge the list holds exactly the live timers, in order |
| Timers.TimerList.Prepare | src/common/mainloop.c:1482-1505 | 0 with deferred work, -1 without live timers, otherwise the least whole number of milliseconds that reaches the earliest expiry, too late by less than one |
| Timers.TimerList.Dispatch | src/common/mainloop.c:1666-1695 | for callbacks that add, delete and restart any timers and may quit: the timers due at the start fire in order of expiry, each once, unless a callback of the round deletes or restarts them first; none is left due, except after quitting, or when the walk is off course. Every firing is of the first live timer from where the walk goes on, and leaves the timers exactly as its actions, in order, and the rearming make them; off course is so exactly if the callback of the last timer fired restarts the timer behind it on the list as it then was, alive and not deleted before by the same callback |
| Timers.TimerList.DispatchOwn | src/common/mainloop.c:1666-1695 | for callbacks that add, delete any and restart only their own timer, and do not quit: one round fires every timer due at its start once, in order of expiry, unless a timer fired before deleted it, and leaves none due |
| Timers.OwnBusiness | src/common/mainloop.c:1666-1695 | such callbacks never take the walk off course, and each timer due at the start has fired or was deleted by one that did |
| Timers.TimerList.Fire | src/common/mainloop.c:1674-1683 | one firing: the callback runs once, and the timer is then armed from its end, or stays deleted; all else is as the actions of the callback make it |
| Timers.FiresAsTold | src/common/mainloop.c:1674-1683 | a firing is a reading of the clock, the actions of the callback each carried out in turn and nothing else, another reading, and the timer armed at its interval from a third one, in front of the first live timer due no earlier, unless it was deleted |
| Timers.ActsCarried | src/common/mainloop.c:735-793 | the actions of a callback: a timer added is live with its interval from now and in its place, one deleted is not live, one restarted has its new interval and place; all else is as it was |
| Timers.CourseFit | src/common/mainloop.c:1666-1695 | at every firing of a round the live timers are listed, once, each with an interval and an expiry, if they are at its start; so FiresAsTold applies to each |
| Timers.TimerList.HereFit | src/common/mainloop.c:1666-1674 | at the start of a round they are |
| Timers.TimerList.Callback | src/common/mainloop.c:1680-1681 | whatever a callback does, all other timers due stay ahead of the walk, exactly unless it restarts the saved next timer without having deleted it; then nothing due is ahead |
| Timers.Derailed | src/common/mainloop.c:1666-1695 | three timers due, the callback of the first restarts the second: the third is passed over |
| Timers.IntervalExact | src/common/mainloop.c:697-702 | the product of milliseconds is below 2^32 and off by a multiple of 2^32; it is exact up to 4294967 ms, and 0 exactly for multiples of 2^29 |
| Timers.InsertSorted | src/common/mainloop.c:655-694 | insertion keeps live timers in order of expiry |
| Timers.InsertPlace | src/common/mainloop.c:655-694 | the timer goes in front of the first live timer due no earlier; the live ones in front of it are due earlier |
| Timers.InsertUndone | src/common/mainloop.c:655-702 | unlinking an inserted timer gives the list back |
| Timers.FirstLiveFacts | src/common/mainloop.c:705-721 | the first live timer is the one that expires first; there is none exactly if no timer is live |
| Timers.Rearmed | src/common/mainloop.c:697-702 | taking a timer out and putting it in at its new expiry keeps the list |
| Timers.Unlinked | src/common/mainloop.c:1359-1380 | freeing one marked timer changes neither the order nor the next timer |
| Timers.AtPlace | src/common/mainloop.c:1674-1693 | at a live timer the walk has the earliest of all that are due, so one that is not yet due ends it rightly |
| Timers.GoOn | src/common/mainloop.c:1674-1693 | after a firing exactly what was due, has not fired and lives is still due, and is ahead |
| Timers.PlacedMove | src/common/mainloop.c:697-702 | arming any timer but the saved next one again leaves what is due ahead of the walk |
| Timers.LogStart | src/common/mainloop.c:1674-1683 | the start of a firing lies at least the interval after the end of the one before |
| IoWatch.Watches.Add | src/common/mainloop.c:412-461 | the first watch on a descriptor registers it, a later one joins its ring and widens the mask, and fails if the descriptor was closed meanwhile; what is stored and polled for is exactly the events the caller asked for, with edge triggering exactly if it asked for that alone, or for neither mode and the loop's mode is edge; sound exactly if the watch wants some event |
| IoWatch.Watches.Del | src/common/mainloop.c:464-504 | the watch is marked and wants nothing; epoll gets the union of the others, or the descriptor goes when none is left, also when it was closed before and epoll does not know it any more; if epoll refuses, sound exactly if there was nothing to change |
| IoWatch.Watches.Close | src/common/mainloop.c:464-504 | closing a watched descriptor, which epoll then drops by itself, keeps all consistent |
| IoWatch.Watches.Purge | src/common/mainloop.c:1359-1380 | after the purge every master in the fd table is live; descriptors, masks and the count are as before |
| IoWatch.Watches.FreeWatch | src/common/mainloop.c:507-531 | a freed master hands its place to the next on the ring |
| IoWatch.Watches.EpollMask | src/common/mainloop.c:390-409 | the walk around the ring computes the union of the events |
| IoWatch.PolledIsWanted | src/common/mainloop.c:390-600 | a descriptor is polled exactly if a live watch is on it and it was not closed, for exactly the events some live watch on it wants |
| IoWatch.Watches.PolledIsAsked | src/common/mainloop.c:390-600 | a descriptor that is open is polled for an event exactly if the caller that added some live watch on it asked for that event |
| IoWatch.WantedGrants | src/common/mainloop.c:549-566 | the events stored are those asked for and the trigger mode, bit by bit |
| IoWatch.PurgedMasters | src/common/mainloop.c:1359-1380 | with nothing left to purge, every master is live |
| IoWatch.AddedMasterOk | src/common/mainloop.c:431-447 | registering a descriptor keeps table, rings, masks and count consistent |
| IoWatch.AddedSlaveOk | src/common/mainloop.c:412-428 | joining a ring keeps them consistent |
| IoWatch.DeletedOk | src/common/mainloop.c:464-504 | marking a watch keeps them consistent |
| IoWatch.RefusedOk | src/common/mainloop.c:464-504 | when epoll refuses the change after a deletion, table and epoll still agree exactly if the others want what was polled for already |
| IoWatch.FreedOk | src/common/mainloop.c:507-531 | freeing a marked watch keeps them consistent, also when the successor of a master is itself marked |
| IoWatch.Handover | src/common/mainloop.c:515-525 | a marked master that is still in the table has a successor |
| IoWatch.UnionBits | src/common/mainloop.c:390-409 | a bit is in the mask of a ring exactly if some watch on it has it |
| IoWatch.UnionWithout | src/common/mainloop.c:390-409 | leaving out a watch that wants nothing does not change the mask |
| IoWatch.IdleWatch | src/common/mainloop.c:534-580 | a live watch that wants no event is outside the invariant |
| EventBus.Loop.AddWatch | src/common/mainloop.c:1975-2003 | the watch becomes the last of its bus, alive, for exactly the events of its mask; nothing else changes |
| EventBus.Loop.constructor | src/common/mainloop.c:1383-1406 | without busses and events, with the pump on the deferred list and disabled, the invariant holds |
| EventBus.Loop.GetBus | src/common/mainloop.c:1876-1910 | a bus of that name, new and idle if there was none |
| EventBus.Loop.DelWatch | src/common/mainloop.c:2041-2055 | a bus in use only marks the watch, otherwise it is unlinked and freed at once; nothing else changes |
| EventBus.Loop.PurgeDead | src/common/mainloop.c:2058-2078 | frees exactly the marked watches, in list order, and keeps the others in order |
| EventBus.Loop.EmitEvent | src/common/mainloop.c:2104-2145 | for arbitrarily nested emissions: matching watches are called in list order, each at most once, up to the end of the list as it was before the callback of the last one, and every one on the way is called unless deleted before this emission called any watch behind it; between one call and the next exactly the acts of that callback are carried out, in order, and nothing else happens: watches they add are linked, watches they delete are logged at that place, events they queue end the queue, emissions they make are emissions in this sense; nothing is freed while the bus is in use, and what was deleted is freed when the outermost emission ends |
| EventBus.Loop.EmitNow | src/common/mainloop.c:2173-2182 | a synchronous emission is an emission with one reference to its data held for its duration |
| EventBus.Loop.Run | src/common/mainloop.c:2133-2134 | a callback does each of its acts, in order, and nothing else; buses in use lose no watch, and what it deletes is never called again |
| EventBus.Loop.Do | src/common/mainloop.c:1876-2182 | one act has the outcome Did states, and no other |
| EventBus.Loop.QueueEvent | src/common/mainloop.c:2081-2101 | the event goes to the end of the queue with a reference to its data, and the pump is enabled, as the last of the deferred callbacks; nothing else changes |
| EventBus.Loop.Deliver | src/common/mainloop.c:2155-2164 | the event in front is emitted on its bus with its id and data, then unlinked and its reference dropped |
| EventBus.Loop.Pump | src/common/mainloop.c:2148-2170 | what it does is one delivery after the other, and nothing else: each event, from its coming to the front of the queue to its leaving it, is emitted on its bus with its id and data, to every watch that was linked and matched unless deleted in time, and the acts of its callbacks are carried out; every queued event exactly once in the order of queueing, also those queued meanwhile; ends with an empty queue and balanced references |
| EventBus.PumpedInOrder | src/common/mainloop.c:2148-2170 | the emissions of queued events come one after the other, in the order of the queue |
| EventBus.Loop.DispatchPump | src/common/mainloop.c:1641-1663 | no wake-up is lost: if the dispatch gets to the pump, the queued events are delivered as by the pump, nothing waits afterwards, and the pump is on the inactive list; if the loop is quit before, all is as it was and the pump is still scheduled |
| EventBus.OverEmitted | src/common/mainloop.c:2137-2142 | what one emission has done by its end |
| EventBus.OverMoved | src/common/mainloop.c:2137-2142 | an emission leaves the emissions around it undisturbed |
| EventBus.LeftOk | src/common/mainloop.c:2058-2078 | the end of an outermost emission frees exactly what died meanwhile, once |
| EventBus.GoneOrNot | src/common/mainloop.c:2041-2078 | on a bus out of use a watch is linked, or was deleted and has been freed |
| EventBus.SweptMoved | src/common/mainloop.c:2127-2135 | a callback does not disturb the walk that called it |
| EventBus.DeadInTime | src/common/mainloop.c:2127-2135 | a watch that is dead when its turn comes was deleted before any watch behind it was called |
| EventBus.DoomedOk | src/common/mainloop.c:2041-2050 | marking a watch keeps the books of watches and log |
| EventBus.DroppedOk | src/common/mainloop.c:2051-2055 | freeing a watch of an idle bus keeps them |
| EventBus.EnqueuedOk | src/common/mainloop.c:2081-2101 | queueing keeps: events wait only while the pump is scheduled |
| EventBus.MovedTrans | src/common/mainloop.c:2104-2145 | effects of successive callbacks add up |
| PoolSize.SizingNeverFails | src/common/mm.c:1100-1180 | for every slot size the total fits the chunk, so the error branch is never taken; the padding fix-up loses at most one slot, and never the only one |
| PoolSize.NoSlot | src/common/mm.c:1100-1180 | the sizes come out as no slot, not as an error, exactly for slot sizes above the chunk size less 40 bytes |
| PoolSize.CacheSuffices | src/common/mm.c:1301-1328 | the exact chunk and slot sizes for which a chunk has no more than so many mask words: 31 for the cache word, or 30 if its shift must not wrap around |
| PoolSize.LargePages | src/common/mm.c:1301-1328 | with 64 KiB pages there are at most 31 exactly for slots of 136 bytes and more, and at most 30 exactly for larger ones |
| PoolSize.ClosedFits | src/common/mm.c:1148-1154 | the closed form leaves room for header, masks and slots |
| PoolSize.SlotsInside | src/common/mm.c:1003-1004 | every slot lies behind the masks and inside the chunk |
| PoolSize.SlotAlignment | src/common/mm.c:1003-1004 | slots are 8-byte aligned exactly if the number of mask words is odd |
| PoolSize.SmallObjectsMisaligned | src/common/mm.c:1003-1004 | the smallest objects with 4 KiB pages: 16 mask words, so every slot is 4 bytes off |
| PoolSize.AddressRoundTrip | src/common/mm.c:1044-1050 | masking the address and dividing by the slot size recovers chunk and slot |
| PoolSize.ObjectsDisjoint | src/common/mm.c:1003-1004 | different slots never overlap |
| PoolSize.CacheWide | src/common/mm.c:1278-1283 | with 4 KiB pages there are at most 16 mask words, and 16 exactly for slots of 16 bytes |
| ObjPool.ChunkInit | src/common/mm.c:1301-1328 | exactly the slots of the chunk are free and the cache is exact; undefined exactly for more than 31 mask words, where 1 << 31 is taken to wrap |
| ObjPool.ChunkEmpty | src/common/mm.c:1278-1298 | true exactly if nothing is allocated and the chunk has 16 mask words |
| ObjPool.FreshChunk | src/common/mm.c:1278-1298 | with 4 KiB pages a fresh chunk of objects larger than 16 bytes is not found empty |
| ObjPool.FirstFreeOk | src/common/mm.c:981-1000 | two find-first-set steps give the lowest free slot |
| ObjPool.TakenOk | src/common/mm.c:1009-1012 | allocating a slot changes that slot only and keeps the cache exact |
| ObjPool.GivenOk | src/common/mm.c:1070-1071 | freeing a slot changes that slot only and keeps the cache exact |
| ObjPool.TookOk | src/common/mm.c:1009-1020 | a chunk moves to the full list exactly when its cache becomes 0 |
| ObjPool.GaveOk | src/common/mm.c:1070-1079 | a full chunk moves to the space list with its first free slot |
| ObjPool.GrownOk | src/common/mm.c:1183-1201 | a fresh chunk keeps the pool sound |
| ObjPool.ShrunkOk | src/common/mm.c:1204-1226 | dropping a chunk without objects keeps the pool sound |
| ObjPool.Pool.constructor | src/common/mm.c:909-946 | the pool is empty and sized, also when its chunks would have too many mask words; the limit is raised to whole chunks |
| ObjPool.Create | src/common/mm.c:909-946 | creation divides by zero exactly for objects larger than the chunk size less 40 bytes, shifts too far exactly if objects are preallocated, a first chunk is had and it has more than 31 mask words, returns nothing exactly if memory does not suffice, and else gives an empty pool with chunks for the objects preallocated and less than a chunk more |
| ObjPool.LateShift | src/common/mm.c:909-980 | with 64 KiB pages a pool of 16-byte objects is created if none is preallocated, and its first allocation shifts too far |
| ObjPool.Pool.Alloc | src/common/mm.c:970-1030 | gives an object that was not live, from the first chunk with space; none exactly at the limit, without memory, or if setup refuses, and then the count of objects is off by one exactly if setup refused; shifts too far exactly if a chunk is had that has more than 31 mask words |
| ObjPool.Pool.Release | src/common/mm.c:1033-1081 | frees exactly the object; NULL and free slots change nothing |
| ObjPool.Pool.PoolGrow | src/common/mm.c:1183-1201 | adds as many empty chunks as asked for or as there is memory for; shifts too far exactly if a chunk is asked for and had, and has more than 31 mask words |
| ObjPool.Pool.Grow | src/common/mm.c:1084-1089 | succeeds exactly if there is memory for as many chunks as hold so many objects, and shifts too far exactly if objects are asked for, a chunk is had, and it has more than 31 mask words |
| ObjPool.ChunksEnough | src/common/mm.c:1086 | so many chunks hold the objects, and one chunk fewer does not |
| ObjPool.Pool.PoolShrink | src/common/mm.c:1204-1226 | frees only chunks without objects, and any such chunk it still finds only with 16 mask words; asked for none it may free one |
| ObjPool.Pool.SweepChunk | src/common/mm.c:1248-1275 | visits and frees the live objects of a chunk, each once, in order |
| ObjPool.Pool.Sweep | src/common/mm.c:1229-1245 | the sweep at destruction visits every live object exactly once and leaves none |
| ObjPool.RoundUpFacts | src/common/mm.c:1176-1177 | the limit becomes the next whole number of chunks, 0 stays 0 |
| MemDump.Books.Alloc | src/common/mm.c:285-314 | count and sum follow the linked blocks, and the maxima their largest values |
| MemDump.Books.Free | src/common/mm.c:317-336 | the block leaves the list and the totals |
| MemDump.Books.Resize | src/common/mm.c:339-379 | the block goes to the end of the list, with its new size if there is memory; size 0 frees it |
| MemDump.Books.Collect | src/common/mm.c:665-688 | the first block of every backtrace is in its bucket with the size of the whole group, the others stay listed in order |
| MemDump.Books.SortBlocks | src/common/mm.c:747-777 | all heads, each once, in ascending order of group size; of two groups of one size the one that came later is first |
| MemDump.InsertSorted | src/common/mm.c:757-775 | the head goes in front of the first one that is no smaller, the others stay |
| MemDump.Books.GroupUsage | src/common/mm.c:691-707 | the sum of a group without its head, modulo 2^32 |
| MemDump.Books.Relink | src/common/mm.c:792-806 | the heads follow the other blocks in sorted order, each with its own size plus any part of its group beyond 32 bits |
| MemDump.Books.Dump | src/common/mm.c:809-831 | the same blocks remain, the heads last and in ascending order of the totals of their groups, with equal totals the one of the later bucket or later in its bucket first; every size is restored and the totals stay right exactly if no group has 4 GiB besides its head |
| MemDump.CollectedMore | src/common/mm.c:675-680 | a further block of a known backtrace joins its group |
| MemDump.CollectedHead | src/common/mm.c:681-685 | a new backtrace opens a group of one |
| MemDump.Partition | src/common/mm.c:665-688 | heads and others are all blocks, each once |
| MemDump.HeadsFirst | src/common/mm.c:665-688 | a block is a head exactly if no block before it has its backtrace |
| MemDump.KeptOrder | src/common/mm.c:665-688 | heads and other blocks are each in the order of the list |
| MemDump.InsertedAscending | src/common/mm.c:757-775 | insertion before the first group that is no smaller keeps the order |
| MemDump.DumpedSum | src/common/mm.c:792-806 | the sum of sizes is restored exactly if no group is too large |
| Path.Normalize | src/common/file-utils.c:250-352 | for absolute paths: the result is the rendering of the fold that drops empty and "." components and pops on ".."; refused for space only if the path would not fit; in a buffer larger than the path the backtrack array is overrun exactly when the fold says so, and never otherwise |
| Path.RenderedIsNormal | src/common/file-utils.c:250-352 | the result is a normal form: no "", "." or ".." component, a trailing slash only if asked for; normalising it again changes nothing, exactly unless it has more directories than the backtrack array |
| Path.FoldNormal | src/common/file-utils.c:250-352 | folding keeps only normal components |
| Path.FoldSnoc | src/common/file-utils.c:279-336 | one more component: an empty one or "." changes nothing, ".." drops the last component or climbs at the root, any other is added |
| Path.SplitJoined | src/common/file-utils.c:271-285 | the components with slashes between them are the path |
| Path.FoldDirs | src/common/file-utils.c:250-352 | folding a rendered prefix gives its components back |
| Path.FoldBound | src/common/file-utils.c:250-352 | a fold that does not overrun keeps its components within the array and its climbs |
| Path.FoldDeep | src/common/file-utils.c:250-352 | a path of more directories than the backtrack array has entries overruns it |
| Path.BacksPush | src/common/file-utils.c:279-281 | the backtrack stack gains the slash in front of the component opened |
| Path.BacksPop | src/common/file-utils.c:312-320 | popping the backtrack stack moves the writer to the slash in front of the component dropped |
| Path.PopState | src/common/file-utils.c:312-334 | ".." drops the last component, or climbs at the root |
| Path.PushState | src/common/file-utils.c:279-285 | a slash closes the component being copied |
| Path.TwoClimbs | src/common/file-utils.c:279-331 | "/../../a/b" overruns, "/../a/b" and "/../../b" do not |
| Mkdir.MakeDirs | src/common/file-utils.c:188-247 | all or nothing: success leaves every prefix a directory and adds only prefixes; failure changes nothing, except that a directory that could not be labelled stays; each failure has its cause, and a directory that could not be made or labelled was not there before |
| Mkdir.CleanUp | src/common/file-utils.c:239-246 | undoing in reverse order restores the file system |
| Mkdir.CleanUpLabelled | src/common/file-utils.c:214-216 | a directory that could not be labelled is not on the undo stack and stays |
| Mkdir.CheckPrefix | src/common/file-utils.c:202-226 | one component is made a directory and recorded, or everything is taken back |
| Mkdir.LastIsEmpty | src/common/file-utils.c:239-246 | the directory created last is empty, so removing it takes back one step |
| Mkdir.UndoOne | src/common/file-utils.c:240-244 | what the top of the undo stack names is the directory created last |
| Mkdir.AllDone | src/common/file-utils.c:228-237 | at the end of the path every prefix is a directory |
| Mkdir.BlockedHere | src/common/file-utils.c:220-225 | ENOTDIR means that something on the way is no directory and was there before |
| Mkdir.LackingHere | src/common/file-utils.c:205-218 | only a prefix that was missing is made or labelled |
| Fragbuf.RoundTrip | src/common/fragbuf.c:187-276 | messages framed by the sender and cut into any chunks come out in order, and the buffer holds exactly the incomplete end |
| Fragbuf.FeedIsParse | src/common/fragbuf.c:187-276 | pushing chunks and pulling until none is left decodes the whole stream, however it is cut |
| Fragbuf.DrainedExactly | src/common/fragbuf.c:210-276 | one pull loop delivers all complete messages exactly if the buffer does not end in an empty message behind another one |
| Fragbuf.AcceptsExactly | src/common/fragbuf.c:209-276 | the signed comparison accepts whole frames and every header beyond the buffer's counters; what is handed out lies inside the buffer exactly if the header is not of those |
| Fragbuf.WildHeaders | src/common/fragbuf.c:209-276 | the headers FF FF FF FC and 7F FF FF FC are accepted with nothing behind them |
| Fragbuf.EmptyLast | src/common/fragbuf.c:253-271 | of a one-byte and an empty message the empty one is held back |
| Fragbuf.ParseFrames | src/common/stream-transport.c:700-718 | decoding what the sender frames gives its messages back |
| Fragbuf.ParseAppend | src/common/fragbuf.c:187-276 | later bytes only extend what is decoded |
| Fragbuf.PrefixDecodes | src/common/fragbuf.c:187-276 | every prefix of a framed stream decodes to a prefix of the messages and a proper prefix of the next frame |
| Fragbuf.FeedTame | src/common/fragbuf.c:209-276 | no header of a stream the sender framed is out of range, however it is cut |
| Fragbuf.Buffer.Ensure | src/common/fragbuf.c:45-59 | makes room and keeps the contents; none without memory, or for nothing in a buffer without storage |
| Fragbuf.Buffer.Alloc | src/common/fragbuf.c:140-150 | claims space behind the contents |
| Fragbuf.Buffer.Trim | src/common/fragbuf.c:153-167 | gives back the end of the last claim, and only of the last |
| Fragbuf.Buffer.Push | src/common/fragbuf.c:170-184 | appends the bytes |
| Fragbuf.Buffer.Receive | src/common/stream-transport.c:481-511 | claim, read and trim amount to a push of what was read; EAGAIN leaves the whole claim in the buffer |
| Fragbuf.Buffer.PullFramed | src/common/fragbuf.c:209-276 | consumes the message delivered before, out of bounds exactly if its header was out of range, and delivers the next that the signed comparison accepts; it lies inside the buffer exactly if its header is in range |
| Fragbuf.Buffer.PullRaw | src/common/fragbuf.c:202-245 | unframed, everything is one message |
| Fragbuf.Buffer.Drain | src/common/stream-transport.c:513-535 | the pull loop delivers and leaves what Drained says, and comes upon a header out of range exactly if Overruns does |
| Fragbuf.Buffer.Collect | src/common/stream-transport.c:455-541 | pushing any chunks and pulling after each computes Feed, up to a header out of range or a chunk for which there is no memory |
| Fragbuf.Transfer | src/common/stream-transport.c:455-541 | a framed stream of messages pushed in any chunks into a new buffer, as far as there is memory: the messages come out in order and exactly the incomplete end is left |
| Transport.Transport.Do | src/common/transport.c:301-520 | every operation has exactly the outcome whose guarantees OneKept and OneShows state, and no field is accessed once the transport is released |
| Transport.Transport.PurgeDestroyed | src/common/transport.c:358-367 | releases exactly if destruction was requested and no call is running |
| Transport.Transport.Run | src/common/transport.h:356-361 | the operations nested in a call are all performed, in order: destruction is requested as often as they ask for it at any depth, the connection is as the last connect or disconnect of them left it; and they never release the transport |
| Transport.Transport.RecvData | src/common/transport.c:522-561 | delivers to the callback without a purge check |
| Transport.Transport.Deliver | src/common/stream-transport.c:513-535 | the loop stops as soon as the transport is gone, or a frame fails |
| Transport.Transport.Readable | src/common/stream-transport.c:455-541 | the receive callback: connection, error, frames, hang-up |
| Transport.Session | src/common/transport.c:358-444 | for every run of calls the transport is released exactly once, when the first call returns in which a destroy is performed, at whatever depth, and never if none is |
| Transport.OneKept | src/common/transport.c:358-520 | for every tree of operations: never gone while a call runs, gone at depth zero exactly if destroyed, depth restored |
| Transport.OneShows | src/common/transport.c:301-520 | for every tree of operations: destruction is requested exactly if it was before or an operation performed in the tree, at any depth, is a destroy, and as often; connected is what the last successful connect or disconnect performed in it left |
| Transport.DuringShows | src/common/transport.h:356-361 | the same for the operations of a request or callback |
| Transport.NestedDestroy | src/common/stream-transport.c:455-541 | a receive callback that destroys the transport has it released when the input has been handled |
| Transport.DuringKept | src/common/transport.h:356-361 | a request or callback leaves nesting as it was and the transport there |
| Transport.FramesKept | src/common/stream-transport.c:513-535 | the receive loop at depth zero goes on only with a transport that is not destroyed |
| Transport.FramesEnd | src/common/stream-transport.c:513-535 | frames behind the end of the loop make no difference |

## Left out

- The width of the hash table's 32-bit counters: entries and allocated slots are unbounded numbers.
- iot_hashtbl_reset and iot_hashtbl_destroy: reset leaves empty buckets on the used list, which the iteration then cannot pass.
- HashTable.Table.AddAt: is not followed up by further operations once it has stored something, because the slot stays unmarked.
- HashRun.Run: the bucket array can be had as long as it is not there; without it an add loses its slot, as HashTable.Table.Add says. One iteration at a time is in progress; for calls that belong to another one see HashTable.Table.Iter and HashRun.PassedOver.
- HashTable.Table.ForEach: loop bodies delete entries; bodies that also add and replace are runs of HashRun.Run, where HashView.Conserved says what is visited.
- HashTable.Table.ForEach: the entries a body is given are named by slot; user callbacks that free keys and objects are not modelled.
- Mask functions iot_mask_copy, iot_mask_lock and the bitwise combinations; iot_mask_ffs without compiler support; the 24-bit width of nbit; negative indices.
- Mask.Mask.Shrink: requires at least one bit; for none the code reallocates the word of the union as if it were a pointer.
- Mask.Mask.ChangeRange: requires a lower bound inside the words, and Mask.Mask.Next a start inside them; beyond them the code reads and writes past the end.
- Lists with NULL hooks and iot_list_update_address.
- Timers.TimerList.Dispatch: requires that a timer armed anew is due later than now: intervals that do not come out as 0, or a clock that advances between readings. Otherwise a timer with interval 0 can fire for ever in one round.
- The width of the 64-bit clock.
- IoWatch.Watches.Add: a descriptor that is closed and opened again while watched counts as closed. The forced stop on RDHUP and HUP, event dispatch to slaves, and the duplicate-accepting hashed part of the fd table are not modelled.
- Wakeups, signal handlers, superloops and the other deferred callbacks of the main loop.
- EventBus.Loop.EmitEvent: is for named busses; the global bus has no use count and deletes at once. Callbacks are finite trees, and none of them runs the pump itself.
- Event data other than JSON carries no references; event names and ids are numbers.
- ObjPool.Pool.Alloc: the objects' contents, poisoning and the cleanup callback's effects are not modelled, and nobj does not wrap upwards.
- ObjPool.Pool.Sweep: destruction frees no chunks, as in the code; without a cleanup callback it does not sweep.
- MemDump.Books.Alloc: the block counter is not reduced to 32 bits. Blocks keep their identity when realloc moves them. The printed text of a dump is not modelled.
- Path.Normalize: relative paths get no meaning, only the outcome; in a buffer no larger than the path, a path that overruns the backtrack array may be refused for space first.
- Mkdir.MakeDirs: symbolic links, permissions and concurrent changes of the file system are not modelled.
- Fragbuf.Buffer.Collect: requires that the buffer never has to hold more than its signed counters can count (Fits). What the code does after it has handed out a message that is not in the buffer is not modelled, nor is iot_fragbuf_missing, whose loop does not advance.
- Transport.Transport.Do: addresses, data and options are not modelled, nor the accepted transport of iot_transport_accept; the datagram back end is not modelled.
- JSON, regular expressions, logging, options, resource and application packages, language bindings: calls into other libraries, or easy members.
