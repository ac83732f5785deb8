# A Dafny model of the vRouter datapath tables

vRouter forwards packets through a handful of tables that are shared between datapath threads, the
agent and deferred callbacks. This project models those tables and proves what they are for: that a
trie lookup is a longest match, that lock-free lists neither lose nor duplicate entries, that queued
packets meet exactly one fate, that counters count, that checksum shortcuts are right. Where the code
does not have the property, the model keeps the code, gives an input or a run that shows it, and
proves when the property does hold.

| modules | model | main results |
|---|---|---|
| `Bits`, `Routes`, `Mtrie*` | the 8-bit-stride trie, as values and as arrays of entries overwritten in place | lookup is longest match over every run of aligned adds and safe deletes, for any number of levels; one add changes exactly the right lookups; a delete is right if and only no block it flattens is tiled by longer routes; paged dumps tell for every address what a lookup says, once |
| `RouteMask` | masking of the prefix of a route request | exactly when the masked prefix is fit for the trie |
| `Nexthops`, `NexthopTrie` | reference counts of nexthops and composites, and of the leaves of whole tries and of buckets that wait to be freed | a count is the number of references through every add, delete, split, collapse and free; a nexthop lives exactly as long as something names it |
| `Lists`, `HtableProtocol`, `HtableLookup`, `HtableSweep` | overflow entries of the hash table, all interleavings of allocation, linking, marking, unlinking, grace periods, free-list pushes and lookups | a step keeps the invariant if and only if it is not a plain store past an entry marked meanwhile; then every entry is in one place, lists stay lists, the counter is right, pops are not fooled by reuse, a lookup comes past every entry that stays on its chain, and a walk of the worker takes out everything that was marked |
| `Htable` | the hash table as one thread sees it | it is a partial map; allocation fails only when bucket and free list are exhausted |
| `HoldQueue` | the queue of packets on a held flow, all interleavings, with and without deferral data | exactly which steps are safe; over safe runs each packet is flushed or dropped once and a freed queue is empty; exactly when a flow on hold keeps its packets |
| `FlowEvict`, `FlowEvictRuns`, `FlowEvictMarks`, `FlowEvictRaces` | the MODIFIED and EVICT_CANDIDATE bits, all interleavings of markers, works, callbacks, agent sets and deletes | exactly which evictions, releases and resets are safe; over safe runs one party a bit, candidates out of the agent's reach, each flow released once; only dead flows without a live reverse flow become candidates; runs from an empty table that show every way it goes wrong |
| `Tcp`, `HoldCount` | TCP tracking of a flow pair; counting of flows on hold | all bits, with deadness and whether the connection is established, told by the history of segments; the count is right across counter wrap |
| `FragmentQueue`, `Assembler`, `FragmentBytes` | the per-CPU fragment queue under concurrency, the assembler's list, byte accounting | order, conservation and fate of packets over every run; exactly when an entry goes, with 16-bit counters |
| `Itable`, `ItableHeap`, `Btable` | strided index table, as values and in place; big table over partitions | a map for every split into strides and exactly when no stride is empty or leaked; exactly when every entry of a big table has memory of its own |
| `Numbers`, `Words`, `Checksum`, `TcpOptions` | header, pseudo-header and incremental checksums, clamping of the TCP segment size | congruence with the plain sum and no lost carry; the clamp lowers the first segment size option and nothing else, and exactly when it keeps a checksum valid |

Protocols are state machines whose steps are the atomic operations of the code (loads,
compare-and-swaps, fetch-and-ors, exchanges) and theorems about them range over all runs. A grace
period is a set of read-side sections that must have ended. Sequential code that works in place is
a class or a method over an array, proved against functions on values about which the theorems are.

## What the code does not do, and when it does

- An add with bits set past the prefix length in the last byte starts its run in the middle and the
  eight-bit index wraps; it covers the right addresses if and only if the byte is aligned
  (`MtrieAdd.ReachedIffAligned`). Request masking does not touch the last byte, so this happens for
  IPv4 lengths 25 to 31 (`RouteMask.Ipv4Masked`); for IPv6 it clears significant bits of lengths
  that are not a multiple of eight (`RouteMask.Ipv6Masked`).
- A split sets the new leaves to the discard nexthop if the nexthop of the leaf that is split has been
  deleted. The add is the one that keeps longest match if and only if that nexthop is still in place or
  all new leaves are overwritten (`NexthopTrie.AddInIsAddIff`). A request whose hardware address is not
  in the bridge table ends without dropping its reference; the counts are right with these lost
  references added (`NexthopTrie.Router.CountIs`).
- A delete of the default route is lost when the root is a leaf (`MtrieRuns.DefaultDeleteLost`), and
  collapsing a bucket that other routes tile with equal entries gives a wrong answer
  (`MtrieRuns.TiledDeleteLost`). A delete is right for every address if and only if `Deletable` holds of
  the trie and the routes before it (`MtrieTiles.DeleteCorrectIff`); that no tiling exists is enough
  (`MtrieTiles.DeletableUntiled`).
- The delete worker of a hash bucket tests the mark of an entry twice. An entry marked in between can
  make the worker's plain store go into an entry that has been passed over, which loses a chain entry
  (`HtableProtocol.MarkInWindowLosesEntry`). A step keeps the invariant if and only if the store is into
  an entry that points to the one taken out (`HtableProtocol.StepInvIff`); no mark in the window is
  enough (`HtableProtocol.NoMarkInWindowIsSafe`).
- The reservation counter of a hold queue is 32 bits wide and wraps (`HoldQueue.WrapLosesPacket`), and a
  work without deferral data frees the queue under an enqueuer (`HoldQueue.FreedUnderEnqueuer`).
  `HoldQueue.StepInvIff` says which steps are safe and `HoldQueue.PatientIsSafe` what is enough for it.
- A flow that is put on hold again keeps its queue if and only if no work that has looked at it before
  swaps it out (`HoldQueue.HeldKeepsQueueIff`); otherwise packets are flushed while the flow is on hold
  (`HoldQueue.HeldAgainFlushed`).
- Eviction is protected by a grace period between the scheduling of a work and its callback, but the
  callback evicts whatever candidate it finds. A callback of an agent set, or one that comes to the entry
  as the reverse of another, evicts under a marker (`FlowEvictRaces.CallbackTakesCandidate`), and the
  marker then clears the bit of the next owner (`FlowEvictRaces.AgentLosesItsBit`). A lookup between
  eviction and release does the same (`FlowEvictRaces.LookInWindow`), and so does a delete that resets an
  entry under a marker (`FlowEvictRaces.ResetUnderMarker`). `FlowEvict.StepInvIff` says exactly when such
  a step is safe. The flags of the entry cannot tell (`FlowEvictRuns.FlagsDoNotTell`); the grace period
  makes a work's own eviction safe (`FlowEvictRuns.GraceProtects`).
- Two callbacks that come to one entry can leave the bit of the reverse entry set for ever
  (`FlowEvictRaces.BitLeftBehind`, exactly when: `FlowEvictRuns.CoveredIff`). Held flows are to be spared
  from eviction, but the action is checked for the reverse flow only (`FlowEvictRaces.HeldFlowMarked`,
  exactly when: `FlowEvictRuns.NoneHeldIff`).
- The hold counters keep their difference unless a counter is at its end and there is no action to
  balance it against (`HoldCount.RaisedExact`).
- The memory of a big table is a 32-bit product and its entry size is kept in 16 bits
  (`Btable.RoomIffFits`, `Btable.ShortTable`); a table attached to memory whose last piece is the longest
  does not find its last entries (`Btable.AttachedFoundIff`).
- The byte counts of a fragmented datagram are 16 bits wide, and a deleted entry stays deleted
  (`FragmentBytes.GoneIff`): a fragment that arrives twice, or lengths that add up modulo 2^16, delete the
  entry early (`FragmentBytes.DuplicateDeletesEarly`, `FragmentBytes.WrapDeletesEarly`).
- Clamping a segment size option at an odd offset keeps the checksum valid only by accident
  (`Checksum.AdjustKeepsSumIff`, `Checksum.OddOffsetBreaks`).
- Storing a null pointer in an index table leaves empty strides unless the last stride has another
  element (`Itable.NullTightIff`, `Itable.NullLeavesStrides`). Freeing a table in use frees every stride
  if and only if there are two levels (`Itable.ExitFreesAllIff`).
- The description of the fragment queue has the enqueuer swap the head and repair its next pointer
  afterwards; the code retries a compare-and-swap, and so does the model.

## Model

| member | source | states |
|---|---|---|
| MtrieAdd.AddLookup | dp-core/vr_ip_mtrie.c:391-463 | after one add, a lookup returns the new route exactly for addresses the add reaches whose winner was no longer than it, and the old answer otherwise, however many buckets are split |
| MtrieAdd.AddShape | dp-core/vr_ip_mtrie.c:313-351 | adds keep the shape of the trie and that no entry below a bucket has a shorter length than the bucket's entry, which makes the pruning test sound |
| MtrieAdd.AddToTreeLookup | dp-core/vr_ip_mtrie.c:313-351 | pushing a route into a subtree replaces exactly the answers that are no longer than it |
| MtrieAdd.ReachedIffAligned | dp-core/vr_ip_mtrie.c:437-450 | the wrapping run of an add covers exactly the addresses under the prefix if and only if the last byte has no bit past the length |
| MtrieRoutes.LookupIsBest | dp-core/vr_ip_mtrie.c:867-933 | on a trie that represents a route set, a full-length lookup is the longest match |
| MtrieRoutes.AddRepresents | dp-core/vr_ip_mtrie.c:391-463 | an aligned add makes a trie that represents the route set with the route added or replaced |
| MtrieDelete.DeleteRepresents | dp-core/vr_ip_mtrie.c:465-525 | a safe delete that carries the next best covering route makes a trie that represents the route set without the route |
| MtrieDelete.CollapseRepresents | dp-core/vr_ip_mtrie.c:516-523 | collapsing a uniform bucket into its parent keeps all answers when the parent's length is the entries' |
| MtrieDelete.DeleteRunCovers | dp-core/vr_ip_mtrie.c:484-496 | the run of a delete is exactly the entries under the prefix |
| MtrieTiles.DeleteCorrectIff | dp-core/vr_ip_mtrie.c:465-525 | a delete gives the longest match without the route for every address if and only if, in the trie and routes before it, no bucket it goes through is flattened while longer routes tile its block, and a root leaf needs no change |
| MtrieTiles.DeletableUntiled | dp-core/vr_ip_mtrie.c:254-280 | a condition on the routes alone: no block tiled by longer routes of one length and result |
| MtrieExact.DeleteShape | dp-core/vr_ip_mtrie.c:465-525 | a delete keeps the shape and order of the trie |
| MtrieRuns.RunRepresents | dp-core/vr_ip_mtrie.c:391-525 | after every run of aligned adds and of deletes that are right and carry the next best route, the trie represents the abstract routes |
| MtrieRuns.LookupIsLongestMatch | dp-core/vr_ip_mtrie.c:941-989 | after every such run, with any number of levels, a lookup returns result and length of the longest matching route |
| MtrieRuns.DefaultDeleteLost | dp-core/vr_ip_mtrie.c:474-475 | deleting the default route from a root that is a leaf changes nothing |
| MtrieRuns.TiledDeleteLost | dp-core/vr_ip_mtrie.c:516-523 | two halves with one result, a delete below them, and a lookup with the wrong length |
| MtrieHeap.Node.Split | dp-core/vr_ip_mtrie.c:286-311 | a new bucket is 256 copies of the parent leaf |
| MtrieHeap.Node.Push | dp-core/vr_ip_mtrie.c:313-334 | pushes a route into an entry in place, as the function on values does |
| MtrieHeap.Node.PushAll | dp-core/vr_ip_mtrie.c:342-350 | pushes a route into all entries of a bucket |
| MtrieHeap.Node.PushRun | dp-core/vr_ip_mtrie.c:437-450 | pushes a route into a run of entries whose eight-bit index wraps |
| MtrieHeap.Node.Add | dp-core/vr_ip_mtrie.c:404-454 | adds below a bucket in place, and makes of the bucket what the function on values makes |
| MtrieHeap.Node.IsUniform | dp-core/vr_ip_mtrie.c:516-521 | compares all entries with the first |
| MtrieHeap.Node.CollapseSlot | dp-core/vr_ip_mtrie.c:254-280 | replaces a bucket by a leaf in place |
| MtrieHeap.Node.DeleteCovered | dp-core/vr_ip_mtrie.c:498-513 | retags and rewrites one entry of the run of a delete |
| MtrieHeap.Node.Delete | dp-core/vr_ip_mtrie.c:465-525 | deletes below a bucket in place, as the function on values does |
| MtrieHeap.FindRun | dp-core/vr_ip_mtrie.c:484-496 | the loop bounds enclose exactly the entries under the prefix |
| MtrieHeap.Table.constructor | dp-core/vr_ip_mtrie.c:1077-1097 | a new table is one discarding leaf of length zero |
| MtrieHeap.Table.Add | dp-core/vr_ip_mtrie.c:391-463 | the table in memory becomes what the function on values makes of it, and nothing outside it changes |
| MtrieHeap.Table.Delete | dp-core/vr_ip_mtrie.c:465-525 | the same for a delete |
| MtrieHeap.Table.Lookup | dp-core/vr_ip_mtrie.c:941-989 | the walk over pointers returns the lookup of the trie |
| MtrieDump.Dumper.Emit | dp-core/vr_ip_mtrie.c:527-538 | a record is taken while there is room |
| MtrieDump.Dumper.DumpFrom | dp-core/vr_ip_mtrie.c:618-628 | dumps the entries of a bucket from a slot on until the page is full |
| MtrieDump.Dumper.DumpPastMarker | dp-core/vr_ip_mtrie.c:591-628 | resumes after the marker, the last slot included |
| MtrieDump.DumpTable | dp-core/vr_ip_mtrie.c:650-671 | one page is the first records after the marker that fit |
| MtrieDump.AfterIsRest | dp-core/vr_ip_mtrie.c:591-616 | what is after the marker of a record is the rest of the leaf sequence |
| MtrieDump.PagesAreLeaves | dp-core/vr_ip_mtrie.c:574-671 | pages that each resume from the last record are the leaf sequence, without gap or repeat, for any page sizes |
| MtrieDump.EnoughPages | dp-core/vr_ip_mtrie.c:574-671 | pages of at least one record each come to the end of the sequence |
| MtrieDump.LeavesTabulate | dp-core/vr_ip_mtrie.c:574-648 | the leaf sequence is in ascending order, and for every address exactly one record covers it and says what a lookup says |
| MtrieDump.DumpTabulates | dp-core/vr_ip_mtrie.c:574-671 | so are the pages of a whole dump put together |
| MtrieDump.TabulatesLongestMatch | dp-core/vr_ip_mtrie.c:540-572 | if the trie represents a route set, the record tells the longest match |
| MtrieDump.AfterExact | dp-core/vr_ip_mtrie.c:591-628 | whatever the marker, also one that names no record any more, the records returned are those after its bytes, and the leaf it leads into unless its byte is the last |
| RouteMask.Mask | dp-core/vr_route.c:427-443 | masking in place with a shifted mask gives the masked prefix |
| RouteMask.Ipv4Masked | dp-core/vr_route.c:429-442 | the bits that count are kept, and the prefix is aligned if and only if it is at most 24 long or was aligned before |
| RouteMask.Ipv6Masked | dp-core/vr_route.c:431-442 | the bits that count are kept if and only if the length is a multiple of eight, ends in the last byte, or they are zero; the result is aligned if and only if the length is at most 120 or it was aligned before |
| RouteMask.Ipv4RequestAdded | dp-core/vr_route.c:427-450 | an IPv4 request up to 24 bits, or with an aligned last byte, masked and added, adds the route that was asked for |
| RouteMask.Ipv6RequestAdded | dp-core/vr_route.c:427-450 | the same for IPv6 requests that lose no bit that counts, or end aligned in the last byte |
| Nexthops.Table.Put | dp-core/vr_nexthop.c:139-181 | dropping a reference keeps all counts right, frees at the last one, drops the references of components recursively, and terminates for ordered composites |
| Nexthops.Table.Get | dp-core/vr_nexthop.c:46-58 | a reference to the nexthop in a place of the table, if there is one |
| Nexthops.Table.NewLeaf | dp-core/vr_ip_mtrie.c:134-157 | a leaf names the nexthop if it is still in its place, or else the discard nexthop, with counts right |
| Nexthops.Table.SetLeaf | dp-core/vr_ip_mtrie.c:134-166 | the old reference of the leaf is dropped after the new one is stored |
| Nexthops.Table.SplitLeaf | dp-core/vr_ip_mtrie.c:286-311 | splitting a leaf takes one reference for each new leaf and drops the parent's |
| Nexthops.Table.Install | dp-core/vr_nexthop.c:183-201 | a nexthop gets its place if that is free |
| Nexthops.Table.Uninstall | dp-core/vr_nexthop.c:203-215 | a nexthop taken out of the table lives on exactly if leaves, composites or somebody under way name it |
| Nexthops.Table.SetComponents | dp-core/vr_nexthop.c:2330-2379 | old components' references are dropped and the found new ones are taken; the order of composites may change with it |
| Nexthops.FoundConcat | dp-core/vr_nexthop.c:2365-2379 | the components found are those in the places asked for, in order, without empty places |
| Nexthops.Table.constructor | dp-core/vr_nexthop.c:3140-3165 | a new table holds the discard nexthop with one reference |
| NexthopTrie.Router.CountIs | dp-core/vr_ip_mtrie.c:134-311 | in every state that requests lead to, a nexthop's count is its place in the table, the components, the leaves of all tries and of all buckets that wait, and lost references; it exists exactly as long as there are any |
| NexthopTrie.AddInIsAddIff | dp-core/vr_ip_mtrie.c:286-311 | an add whose split leaves are set anew is the add that keeps longest match if and only if the nexthop of the split leaf is still in place or all its leaves are overwritten |
| NexthopTrie.AddInShaped | dp-core/vr_ip_mtrie.c:391-463 | and keeps the shape of the trie |
| NexthopTrie.AddInLookup | dp-core/vr_ip_mtrie.c:286-463 | after such an add a lookup returns the new route exactly where it is reached and no longer one covers; other answers keep all but the nexthop, which becomes the discard nexthop only where a leaf was split |
| NexthopTrie.RequestAnswered | dp-core/vr_ip_mtrie.c:1017-1038 | after an add request a lookup under its prefix returns the nexthop, flags, 20-bit label or the value of no label, and bridge index asked for |
| NexthopTrie.SeqBagAt | dp-core/vr_ip_mtrie.c:134-166 | replacing one entry of a bucket replaces its references among those of the bucket |
| NexthopTrie.Router.Push | dp-core/vr_ip_mtrie.c:313-351 | pushing a route into a subtree keeps all counts right |
| NexthopTrie.Router.SplitEntry | dp-core/vr_ip_mtrie.c:286-311 | so does splitting a leaf into a bucket |
| NexthopTrie.Router.Add | dp-core/vr_ip_mtrie.c:391-463 | so does a whole add, through all splits |
| NexthopTrie.Router.Retire | dp-core/vr_ip_mtrie.c:254-280 | so does collapsing a bucket, whose leaves keep their references until it is freed, later or at once |
| NexthopTrie.Router.Delete | dp-core/vr_ip_mtrie.c:465-525 | so does a whole delete, through all collapses |
| NexthopTrie.Router.FreeEntry | dp-core/vr_ip_mtrie.c:179-222 | freeing an entry drops one reference for each leaf below it |
| NexthopTrie.Router.Check | dp-core/vr_ip_mtrie.c:1005-1027 | a request holds a reference, drops it when it is refused for its label, and loses it when its hardware address is not known |
| NexthopTrie.Router.AddRoute | dp-core/vr_ip_mtrie.c:996-1041 | an add request as a whole: what it answers, what becomes of the trie, which reference is lost, and all counts right |
| NexthopTrie.Router.DeleteRoute | dp-core/vr_ip_mtrie.c:708-746 | the same for a delete request |
| NexthopTrie.Router.Make | dp-core/vr_ip_mtrie.c:1077-1097 | a new trie is one leaf with a reference to the discard nexthop |
| NexthopTrie.Router.Collect | dp-core/vr_ip_mtrie.c:212-235 | freeing a bucket that waited keeps all counts right |
| NexthopTrie.Router.FreeTrie | dp-core/vr_ip_mtrie.c:1099-1119 | so does freeing a whole trie |
| HtableProtocol.StepInvIff | dp-core/vr_htable.c:63-302 | a step of any party keeps the lists, places, counters and walkers consistent if and only if it is not a plain store into an entry that does not point to the one taken out |
| HtableProtocol.RunInvIff | dp-core/vr_htable.c:63-302 | a run keeps them throughout if and only if all its stores are such |
| HtableProtocol.EachEntryOnce | dp-core/vr_htable.c:63-126 | in every such run each overflow entry is on the free list, on exactly one chain, or on none, as its place says, and lists are null-terminated without repeats |
| HtableProtocol.UsedCounter | dp-core/vr_htable.c:83-85 | the usage counter is the size less the free list's length, up to updates under way |
| HtableProtocol.LookupStaysInBucket | dp-core/vr_htable.c:586-600 | a lookup that walks a chain is always on an entry of its own bucket, linked or just unlinked |
| HtableLookup.LookupSeesAll | dp-core/vr_htable.c:586-600 | in every safe run a lookup that comes to the end has been on every entry that was on the chain from its start to its end, whatever was linked, marked or unlinked meanwhile |
| HtableLookup.EmptyLookup | dp-core/vr_htable.c:586-600 | a lookup that ends where it starts has found the chain empty |
| HtableSweep.SweepTakesMarked | dp-core/vr_htable.c:197-302 | in every safe run, when the worker of a bucket comes to the end of the chain, every entry that was marked when it woke up has been taken out since |
| HtableSweep.ReturnsToFree | dp-core/vr_htable.c:93-126 | an entry whose grace period is over goes, undisturbed, to the head of the free list |
| HtableProtocol.PopIsFresh | dp-core/vr_htable.c:71-90 | a successful pop used the right successor: grace periods rule out reuse in between |
| HtableProtocol.BypassExact | dp-core/vr_htable.c:249-251 | the worker's plain store takes out exactly the marked entry if and only if the previous entry points to it |
| HtableProtocol.NoMarkInWindowIsSafe | dp-core/vr_htable.c:229-251 | runs in which no entry is marked between the two tests a worker makes of it are such runs |
| HtableProtocol.MarkInWindowLosesEntry | dp-core/vr_htable.c:229-295 | a run from a fresh table in which a mark between the two tests loses a chain entry |
| Lists.ListBypass | dp-core/vr_htable.c:249-251 | storing an entry's successor into its predecessor takes out exactly that entry |
| Htable.Table.constructor | dp-core/vr_htable.c:678-760 | a new table is the empty map, entries rounded up to whole buckets, all overflow entries free |
| Htable.Table.Find | dp-core/vr_htable.c:549-605 | a key is found exactly if it is in the map, at its entry |
| Htable.Table.SearchChain | dp-core/vr_htable.c:586-600 | an entry of the chain with the key is found if there is one |
| Htable.Table.Add | dp-core/vr_bridge.c:99-141 | a key that is there keeps its entry, a new key gets an unused one, other keys keep theirs; it fails exactly if the bucket is full and no overflow entry is free |
| Htable.Table.TakeOverflow | dp-core/vr_htable.c:441-475 | the first free overflow entry goes to the head of the key's chain |
| Htable.Table.Release | dp-core/vr_htable.c:350-372 | exactly the key of the entry leaves the map; an overflow entry is marked |
| Htable.Table.Sweep | dp-core/vr_htable.c:197-302 | the deleter, stopping at its count, unlinks every marked entry of the chain, keeps the others in order and no key moves |
| Htable.Table.Return | dp-core/vr_htable.c:165-195 | after the grace period the entry is at the head of the free list |
| HoldQueue.StepInvIff | dp-core/vr_flow.c:597-628 | a step of an enqueuer, work or callback keeps slots, reservations and fates consistent if and only if it neither reserves a slot in use nor frees a queue at once that an enqueuer has or a packet is in |
| HoldQueue.RunInvIff | dp-core/vr_flow.c:1467-1499 | a run keeps them throughout if and only if all its steps are such |
| HoldQueue.EachPacketOnce | dp-core/vr_flow.c:1391-1499 | in every such run each packet is with its enqueuer, in one slot, flushed once, or dropped once |
| HoldQueue.FreedIsEmpty | dp-core/vr_flow.c:379-466 | in every such run a freed queue holds no packet and no enqueuer works on it |
| HoldQueue.HeldKeepsQueueIff | dp-core/vr_flow.c:1477-1482 | in every run, a flow on hold keeps its queue if and only if no work that had looked at it before it was on hold swaps the queue out |
| HoldQueue.HeldKeepsPackets | dp-core/vr_flow.c:1477-1482 | in every safe run, if no work has looked at the queue when the flow is put on hold, every packet stored in it stays there, not flushed, while the flow is on hold |
| HoldQueue.HeldAgainFlushed | dp-core/vr_flow.c:1477-1487 | a run in which a packet is flushed while its flow is on hold again |
| HoldQueue.PatientIsSafe | dp-core/vr_flow.c:1740-1768 | runs with fewer than 2^32 reservations on a queue in which works that may meet a queue have deferral data are such runs |
| HoldQueue.WrapLosesPacket | dp-core/vr_flow.c:612-620 | a run in which the packet after 2^32 others overwrites the first |
| HoldQueue.FreedUnderEnqueuer | dp-core/vr_flow.c:1481-1497 | a run in which a work without deferral data frees the queue an enqueuer has, and the packet ends in it |
| FlowEvict.StepInvIff | dp-core/vr_flow.c:356-466 | a step of a marker, work, callback, agent or delete keeps ownership, marks and stages consistent if and only if it does not evict an entry a marker has, nor release or reset one a marker knows |
| FlowEvict.EvictSelfIff | dp-core/vr_flow.c:356-377 | a callback's eviction of its own entry, exactly when it is safe |
| FlowEvict.EvictPeerIff | dp-core/vr_flow.c:406-410 | and of the reverse entry it finds |
| FlowEvict.DropSelfIff | dp-core/vr_flow.c:369-373 | the release after the eviction, exactly when it is safe |
| FlowEvict.ResetIff | dp-core/vr_flow.c:452-454 | the reset of a deleted entry, exactly when it is safe |
| FlowEvictRuns.RunInvIff | dp-core/vr_flow.c:356-466 | a run keeps the invariant throughout if and only if all its steps are safe |
| FlowEvictRuns.OneParty | dp-core/vr_flow.c:312-337 | in every safe run the MODIFIED bit is set exactly while some party works on the entry, and then only one does |
| FlowEvictRuns.CandidateIsBusy | dp-core/vr_flow.c:1877-1881 | in every safe run a candidate is under the MODIFIED bit, and the agent is refused |
| FlowEvictRuns.MarkerKeepsItsFlow | dp-core/vr_flow.c:676-739 | in every safe run the flow a marker works on is the one it looked up |
| FlowEvictMarks.OnlyDeadMarked | dp-core/vr_flow.c:676-739 | in every run, safe or not, a flow becomes a candidate only as a flow its marker found dead, with no valid reverse flow or with a dead one that the marker took and made a candidate too, or as that dead reverse flow |
| FlowEvictMarks.AliveReverseSpares | dp-core/vr_flow.c:688-708 | in every safe run, a flow whose valid reverse flow stays alive from before a marker looks for it does not become a candidate |
| FlowEvictRuns.GraceProtects | dp-core/vr_flow.c:379-416 | the callback of an eviction work whose flow is still in the entry is safe |
| FlowEvictRuns.FlagsDoNotTell | dp-core/vr_flow.c:356-377 | no condition on the flags of an entry can say whether its eviction is safe |
| FlowEvictRuns.NoneHeldIff | dp-core/vr_flow.c:683-716 | no candidate is ever on hold if and only if no marker marks a flow that is on hold |
| FlowEvictRuns.ReleasedOnce | dp-core/vr_flow.c:356-377 | in every safe run each flow put into an entry is released once, by eviction or delete, or is still there |
| FlowEvictRuns.CoveredIff | dp-core/vr_flow.c:404-411 | every doomed entry always has a callback that comes to it if and only if no release takes away the only way to one |
| FlowEvictRaces.HeldFlowMarked | dp-core/vr_flow.c:683-716 | a run in which a held flow becomes a candidate |
| FlowEvictRaces.ResetUnderMarker | dp-core/vr_flow.c:452-454 | a run in which a marker takes the bit of a flow it never looked up |
| FlowEvictRaces.CallbackTakesCandidate | dp-core/vr_flow.c:406-410 | a run in which a callback evicts the candidate of a marker |
| FlowEvictRaces.AgentLosesItsBit | dp-core/vr_flow.c:417-434 | a run in which the callback of an agent set evicts a marker's candidate and the marker then clears the bit the agent has set of the next flow |
| FlowEvictRaces.LookInWindow | dp-core/vr_flow.c:369-373 | a run in which a lookup between eviction and release makes a marker take the bit of the next flow |
| FlowEvictRaces.BitLeftBehind | dp-core/vr_flow.c:404-411 | a run after which an entry is a candidate under the MODIFIED bit and nobody is left to drop it |
| Tcp.Flow.DigestAlone | dp-core/vr_flow.c:1055-1204 | a segment on a flow without a reverse flow |
| Tcp.Flow.Digest | dp-core/vr_flow.c:1055-1204 | one segment changes the bits of both flows as the function on bits says |
| Tcp.Flow.Link | dp-core/vr_flow.c:1022-1053 | a flow takes over what its reverse flow has seen and keeps its own bits |
| Tcp.RunTold | dp-core/vr_flow.c:1055-1204 | for every run, linked from the start or later, the bits are what the history of segments says, cached bits are the other flow's own, a flow is established exactly if some acknowledgement completed its connection, and both are dead exactly if a RST was seen or both FINs were acknowledged |
| Tcp.HalfClosedHasFin | dp-core/vr_flow.c:1177-1181 | a half closed flow has seen its FIN |
| Tcp.HandshakeEstablishes | dp-core/vr_flow.c:1055-1204 | both flows of a connection that starts with a SYN, its answer and the acknowledgement of that are established, whatever follows |
| HoldCount.Counters.SetHold | dp-core/vr_flow.c:972-1005 | a flow goes on hold and the count stays right, across the wrap of a counter, below 2^32 - 1 flows |
| HoldCount.Counters.Balance | dp-core/vr_flow.c:990-1000 | balancing keeps the difference of the counters |
| HoldCount.Counters.Act | dp-core/vr_flow.c:1884-1890 | a flow leaves hold and the count stays right |
| HoldCount.Counters.Count | dp-core/vr_flow.c:954-970 | the count reported is the number of flows on hold |
| HoldCount.RaisedExact | dp-core/vr_flow.c:988-1002 | the difference grows by one if and only if the counter is not at its end or there is an action |
| FragmentQueue.Pool.Reverse | dpdk/vr_dpdk_fragment_assembler.c:53-61 | reverses a list in place and touches no pointer outside it |
| FragmentQueue.HandedInOrder | dpdk/vr_dpdk_fragment_assembler.c:36-85 | in every run packets are handed on in the order in which they were pushed |
| FragmentQueue.EachPacketOnce | dp-core/vr_fragment.c:425-496 | in every run each packet given is dropped once, pushed once, or in one thread's hand |
| FragmentQueue.DroppedOnlyIfContended | dp-core/vr_fragment.c:471-486 | in every run a packet that got an element is dropped only if the tail of the queue changes three times before it is pushed |
| Assembler.ExpiredIsElapsed | dp-core/vr_fragment.c:199-211 | the two-branch test says that the time elapsed modulo 2^32 exceeds the timeout, for all clock values |
| Assembler.Table.Assemble | dp-core/vr_fragment.c:285-401 | one element changes the list and meets its fate as the functions on lists say |
| Assembler.Table.Flush | dp-core/vr_fragment.c:386-390 | the packets of an entry are flushed from the front |
| Assembler.Table.ScanAll | dp-core/vr_fragment.c:187-220 | exactly the entries expired when the scan comes to them are removed with all their packets, the others stay in order |
| Assembler.ListIsBounded | dp-core/vr_fragment.c:336-350 | in every run no datagram has two entries and there is at most one more than the limit |
| Assembler.ParkedInOrder | dp-core/vr_fragment.c:365-390 | in every run the fragments of a datagram leave in the order in which they were parked |
| Assembler.EachPacketOnce | dp-core/vr_fragment.c:285-401 | in every run every packet has exactly one fate or is parked once |
| Assembler.FatesTold | dp-core/vr_fragment.c:285-401 | in every run the packets of every datagram are, in order, passed on if their flow is known, dropped if they are heads or nothing waits and there are too many entries, flushed by their head, and timed out by a scan that finds them too old |
| Assembler.AgeFromLast | dp-core/vr_fragment.c:353-360 | in every run the age of an entry is counted from the arrival of its last fragment |
| FragmentBytes.Entry.Count | dp-core/vr_proto_ip.c:797-807 | a fragment is counted in 16 bits and the entry deleted when the count is complete; a deleted entry is not found again |
| FragmentBytes.GoneIff | dp-core/vr_proto_ip.c:797-807 | after any fragments the entry is gone if and only if at some point a tail had come and the lengths added up modulo 2^16 to its end |
| FragmentBytes.DeletedByTheLast | dp-core/vr_proto_ip.c:783-813 | if the fragments of a datagram of at most 2^16 bytes each arrive once after the head, the last of them deletes the entry, in every order, and none before |
| FragmentBytes.DuplicateDeletesEarly | dp-core/vr_proto_ip.c:797-807 | a tail that comes twice deletes the entry while a fragment is missing |
| FragmentBytes.WrapDeletesEarly | dp-core/vr_proto_ip.c:797-807 | so do lengths that add up only modulo 2^16, whatever comes after |
| Itable.PutGet | dp-core/vr_index_table.c:287-337 | after a store, a get returns it exactly for indices with the same significant bits |
| Itable.DropGet | dp-core/vr_index_table.c:60-108 | after a delete, a get returns nothing exactly for such indices |
| Itable.DropTight | dp-core/vr_index_table.c:82-104 | no empty stride survives a delete |
| Itable.RunRepresents | dp-core/vr_index_table.c:244-337 | after every run of stores, also of null, and deletes, for every split into strides, the table is the map |
| Itable.RunTight | dp-core/vr_index_table.c:82-104 | it has no empty stride, and no root exactly if the map is empty, when null is stored only into strides that hold another element |
| Itable.TraversalIsMap | dp-core/vr_index_table.c:110-154 | a traversal visits exactly the items from the marker on, each once, in ascending order |
| Itable.NullTightIff | dp-core/vr_index_table.c:287-337 | storing null leaves no empty stride if and only if the last stride on the way holds another element |
| Itable.NullLeavesStrides | dp-core/vr_index_table.c:331-336 | storing null into an empty table leaves strides without elements |
| Itable.ExitFreesAllIff | dp-core/vr_index_table.c:156-203 | freeing a table in use frees every stride, each once, if and only if there are two levels of strides |
| ItableHeap.Node.Set | dp-core/vr_index_table.c:312-336 | stores below a stride in place and returns what was there |
| ItableHeap.Node.Delete | dp-core/vr_index_table.c:60-108 | deletes below a stride in place and says whether it is empty now |
| ItableHeap.Node.Dump | dp-core/vr_index_table.c:110-154 | hands the elements from the marker on to the callback up to where it stops |
| ItableHeap.Table.Get | dp-core/vr_index_table.c:260-279 | the loop over strides returns what the tree holds |
| ItableHeap.Table.Set | dp-core/vr_index_table.c:287-337 | the table in memory becomes what the function on trees makes of it |
| ItableHeap.Table.Delete | dp-core/vr_index_table.c:244-258 | the same for a delete |
| ItableHeap.Table.Traverse | dp-core/vr_index_table.c:225-242 | the traversal of the whole table and the result it returns |
| ItableHeap.Table.Exit | dp-core/vr_index_table.c:342-360 | frees the strides the function on trees says |
| ItableHeap.Check | dp-core/vr_index_table.c:381-436 | a table is made exactly for at least two strides, none too long, that together are as long as an index of at most 32 bits |
| Btable.Alloc | dp-core/vr_btable.c:94-175 | a table is made exactly if it is not empty and entries do not cross partitions, with a 32-bit size and a 16-bit entry size |
| Btable.MadeSound | dp-core/vr_btable.c:94-175 | if these fit, the partitions tile the memory and hold whole entries, as many as asked for |
| Btable.Attach | dp-core/vr_btable.c:182-235 | a table over given pieces is made exactly if they hold whole entries, with 32-bit sums and a 16-bit count of pieces |
| Btable.AttachedSound | dp-core/vr_btable.c:182-235 | if these fit, its partitions tile the pieces |
| Btable.AttachedFoundIff | include/vr_btable.h:48-62 | then every entry has memory of its own where division finds it if and only if the last piece is not longer than the first |
| Btable.GetAddress | dp-core/vr_btable.c:48-65 | an offset is found in a partition at the right byte, or nowhere beyond the end |
| Btable.GetIsAddress | include/vr_btable.h:48-62 | division and remainder find an entry where the search over partitions finds its offset |
| Btable.AddressUnique | dp-core/vr_btable.c:48-65 | no two bytes have the same offset |
| Btable.AddressInRange | dp-core/vr_btable.c:48-65 | every byte has an offset in the range |
| Btable.EntryInOnePart | dp-core/vr_btable.c:116-124 | no entry lies in two partitions |
| Btable.RoomIffFits | dp-core/vr_btable.c:103-106 | every entry of a table has memory of its own if and only if the product fits in 32 bits and the entry size in 16, or there is one entry |
| Btable.ShortTable | dp-core/vr_btable.c:103-106 | a table of 131073 entries with memory for one |
| Checksum.HeaderChecksum | dp-core/vr_proto_ip.c:143-171 | the header with its checksum put in sums to zero |
| Checksum.PartialSumIsSum | dp-core/vr_proto_ip.c:198-215 | the IPv4 pseudo-header fold is a 16-bit value and the sum of the words |
| Checksum.PartialSum6 | dp-core/vr_proto_ip.c:173-196 | the same for IPv6 |
| Checksum.CarriedSame | dp-core/vr_proto_ip.c:125-131 | addition with end-around carry and fold loses no carry |
| Checksum.Updated | dp-core/vr_proto_ip.c:114-138 | the stored checksum, complemented or partial, covers a sum that has grown by the increment |
| Checksum.FindMss | dpdk/vr_dpdk_host.c:844-895 | the option found lies whole inside the header |
| Checksum.AdjustMss | dpdk/vr_dpdk_host.c:828-899 | the walk ends, stays inside the header, and clamps the option it finds and the checksum, nothing else |
| TcpOptions.FindsFirstSize | dpdk/vr_dpdk_host.c:844-895 | in a header that holds a list of options up to its end or an end mark, the walk finds the first segment size, or none if there is none |
| TcpOptions.AdjustLowers | dpdk/vr_dpdk_host.c:828-899 | after the clamp the header holds the same options with the first segment size lowered to the limit if it was above |
| Checksum.ReplacedSame | dpdk/vr_dpdk_host.c:876-881 | the incremental checksum keeps the sum |
| Checksum.ClampKeepsSumIff | dpdk/vr_dpdk_host.c:872-882 | the clamp keeps the segment's sum if and only if the option is at an even offset or its bytes change by amounts that differ by a multiple of 257 |
| Checksum.AdjustKeepsSumIff | dpdk/vr_dpdk_host.c:828-899 | the walk over the options as a whole keeps the sum if and only if it clamps nothing, or such an option |
| Checksum.OddOffsetBreaks | dpdk/vr_dpdk_host.c:872-882 | a header with one byte of padding before the option, which the walk clamps and so breaks the checksum |

## Left out

- Trie queries shorter than an address: the scan reuses its bucket variable after recursion, so only host lookups are modelled.
- Allocation failures and early-error paths, such as the reset of candidates when no deferral data can be had, or of a trie when a bucket cannot be had.
- Memory ordering below single atomic steps.
- MtrieRuns.LookupIsLongestMatch: runs whose adds are aligned and whose deletes are right and name the next best covering route, which are the exact conditions for one add and one delete to be right; nexthops deleted under a trie are the subject of NexthopTrie.
- NexthopTrie.Router.Uninstall: not of the discard nexthop, which leaves fall back to; the code does not forbid it.
- NexthopTrie.Router.AddRoute: the table index is in range and the prefix has the length of an address of the table's family.
- Nexthops.Table.SetComponents: composites that contain each other in a circle, for which dropping a reference need not end.
- HtableProtocol.EachEntryOnce: runs in which the plain stores of the delete workers are safe, which is the exact condition.
- HoldQueue.EachPacketOnce: runs in which all steps are safe, which is the exact condition.
- FlowEvictRuns.OneParty: runs in which all steps are safe, which is the exact condition.
- FlowEvict.ResetIff: the reset of an entry whose hold queue has not been detached, which the code leaks, is not distinguished.
- Htable.Table.Release: the bucket of the entry is computed from its key instead of being read from the entry; bucket sizes are powers of two, so that masking is rounding down.
- Tcp.RunTold: both flows are linked to each other in one step; the window in which only one of them is linked is not modelled.
- HoldCount.Counters.SetHold: fewer than 2^32 - 1 flows on hold, and one CPU at a time; races between balancing and the agent are not modelled.
- Assembler.Table.Assemble: the list and the queues are sequences, so pointer updates inside them are not modelled.
- FragmentBytes.Entry.Count: one entry; a second head that makes a second entry for the datagram is not modelled.
- ItableHeap.Node.Set: descends by recursion where the code loops.
- RouteMask.Mask: an IPv4 prefix length of zero, for which the code's shift is undefined.
- RouteMask.Ipv4Masked: an IPv4 prefix length of zero, for the same reason.
- Btable.Attach: an entry size of zero, for which the code's remainder is undefined.
- Btable.AttachedFoundIff: a first piece of length zero, sums of 2^32 and more and 2^16 and more pieces.
- Table reset, the fragment metadata table and its reaper, fat flows, mirroring, packet rewriting, QoS, statistics and all message encoding, which are other parts of the datapath.
