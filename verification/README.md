# A verified model of the sl.h skip list

`include/sl.h` generates a key-ordered, in-memory map: a skip list that any
number of threads may read and write without locks, with epoch-based memory
reclamation, a splay-like rebalance that moves often-used keys up, a slot pool,
snapshots, and an archive format.  These files model that program, its property
tests and the algorithms of its test framework and benchmark, and prove what
they promise.

`dafny verify dfyconfig.toml` checks everything.

## The parts

**The lock-free list.** `LevelChain` is one level: forward pointers with
deletion marks, the four kinds of atomic write the code performs on them, and
what those do to walks. `Removing` is the unlink by identity, a remover's sweep
and verification of all levels, access by access. `LockFree` puts the levels
together into a step system for any number of inserting, removing and helping
threads, one access to shared memory per step, and proves its invariant over
every run. `Completing` proves that an insert left alone gets done, and with
`Sweeping` the same of a remover. `Erasure` tells the runs that keep all marks
from the others. `Retirement` answers when a retired node can still be reached
from the head of a level, `Descents` when by a way down through the levels,
`Revisits` when by a lookup that starts later and goes on among the writers.
`Membership` is what the list contains, `Strays` the removed nodes without a
mark, `Lookups` what a lookup beside the writers may report, and `FirstMatch`
which of several nodes with the key it reports. `Promotion` is a rebalance and a
remove of one node, with other threads beside them, `TakingBack` what becomes of
the node and of its neighbours, and `Settling` proves that both come to an end.
Where one of these answers is a condition, a run that fails it is carried out
step by step, the sweep and verification of every remover that takes part
included: `Mishaps`, `Stranding` and `Mislookups` draw theirs with `Pictures`,
`Relapses` has those of a promotion. `Epochs` is reclamation: pin, retire,
advance and free, again one access per step; `Sections` tells what a section
protects, `EpochProgress` when the epoch moves, and that what is retired does
get freed.

**The sequential list.** `SkipList.List` is the list of one thread as a class
whose methods are the program's loops over pointer fields. `Towers`,
`Inserting`, `Unlinking`, `Searching` and `Resizing` hold the facts about
shapes those loops rest on. `SortedArray.Model` is the two parallel arrays the
property test uses as reference, `OrderedItems` what both are specified by,
and `Refinement` the test itself, proved never to fail.

**Around it.**  `Snapshots` (eras and restore), `RecordCodec`, `Framing`,
`FileFormat` and `Archive` (the file format, written and read), `SplayHeight` (where the
rebalance leaves a node), `SlotPool` and `SlotRuns` (the pool, alone and under
threads), `Bits`, `FullPeriod` and `MunitRandom` (the test framework's
generator), `MunitParameters` (its runner of parameter combinations) and
`Shuffle` (the benchmark's generator and shuffle).

## Where the program falls short of its promises

These are proved, each with the exact condition under which the promise holds.

- "Marks are never cleared" fails for one write, the plain store in phase 6 of the
  insert onto a slot marked since its test: `ClearsIff`, `RunKeepsMarksIff`,
  `MarkCanLandBeforeStore`.
- A retired node can become reachable again at an upper level. `RunIsSafeIff` of
  `Retirement` gives the three kinds of step that bring it about: the late swing of
  an insert still linking its node when that was removed (`OvertakingHappens`),
  and, once a mark has been erased, a remover's swing to a successor it loaded
  before somebody changed it (`OutdatedSwingHappens`), and a splice from behind a
  node off the chain, where the scan is about to pass (`HidingHappens`).  The last
  two reach nodes whose own insert returned long before.  Level 0 is never
  affected, and nothing is if no thread marks a node whose insert is unfinished
  (`InsertedFirstIsNeverSpoiled`).
- A search enters a level at a node it met above, and that can lead to a retired
  node although no level leads to it from the head (`StrandingHappens`): once a
  mark has been erased, an insert may link its node behind one that is off the
  level.  `RunIsOnIff` and `RetiredIsOnNoWay` say that there is no other way.  That
  a lookup started after the retirement never comes to hold the node at all, which
  reclamation relies on, holds while no mark is erased and no remover overtaken
  (`NeverHeldAgain`), so for callers as above always
  (`InsertedFirstIsNeverHeldAgain`).
- Taking back a promotion is a load and a swing, and what is written in between is
  lost: a removed neighbour comes back (`UndoBringsBack`), an inserted one would be
  dropped.  The undo can also succeed on a predecessor that is itself off the
  level, and the retired node stays reachable (`RetiredStaysReachable`).
  `RunIsSafeIff` of `TakingBack` gives the exact condition at every level.  A
  demotion, which loads and swings in the same way (include/sl.h:1468-1475), is
  exact under the condition of `SwingIsExactIff`.
- A promotion re-reads its predecessor's pointer and never compares keys again,
  so an insert in between makes the level unordered: `RunIsSortedIff`,
  `PublishUpsets`.
- A lookup may miss a key that is there all the time, if a second node with it is
  linked behind the walk and the node it stands on removed
  (`PresentKeyIsMissed`): `NonePastAfterIff` and `AbsentIsWrongIff` say just when.
  A list without duplicates never shows this (`LookupIsRight`).  By its early exit
  on an upper level a lookup may find a removed node that carries no mark there,
  after an erased mark or a promotion (`StrayIsFound`); `StrayAfterIff` names the
  two steps that bring it about, and `LookupIsLinearizable` what follows for a
  lookup.
- The rebalance stops raising a node below the height of the design's formula
  where the node that would follow it is nearly as hot, and lowers none that
  stands at the head's height or above: `RestsIff`, `Settle`.
- A restore brings back too much if a key on the preserved list had been
  deleted before the snapshot was taken: `RestoreIsExactIff`.  After one restore
  the eras before it can still be restored, says the comment
  (include/sl.h:3109-3111), but in general not exactly: `OlderEraIsExactIff`.
- An allocation may report exhaustion with a slot free when the pool's cursor
  wraps around: `FailsOnlyWhenFullIff`, `GapHappens`.
- Bounded random draws can be biased, since the rejection
  threshold is computed before the bound is increased: `AtMostIsEvenIff`,
  `UnevenForThree`.
- The rebalance never demotes the predecessors on the path, although its
  comment (include/sl.h:1399-1403) and DESIGN.md:100-101 say so: the path's own
  entry for a predecessor's top level is that predecessor (`PredecessorsStayUp`).
- `position_lte` returns the first of several equal nodes, so it gives the last
  node not above the key if and only if no second node has the key (`PositionLte`,
  `LteOfTwo`).
- DESIGN.md:535-548 describes a predecessor hint carried between the levels of
  the unlink sweep; the code starts every level from the head, and so does the
  model.

## Model

| member | source | states |
|---|---|---|
| `LevelChain.LinkKeepsValid` | include/sl.h:2038-2049 | The publishing CAS of an insert keeps a level valid: sentinels at the ends, every pointer of every node ever linked leads strictly forward to a key not smaller, only marked nodes are off the chain |
| `LevelChain.LinkKeepsSortedIff` | include/sl.h:2092-2098 | A link keeps the keys of a level in order if and only if the new node is not larger than its successor |
| `LevelChain.SpliceKeepsValid` | include/sl.h:1734-1742 | Splicing out a marked successor by compare-and-swap keeps the level valid, also for nodes spliced out earlier that still point into it; a marked node's pointer is frozen, so loading it and swinging count as one write |
| `LevelChain.MarkKeepsValid` | include/sl.h:2460-2472 | Setting a deletion mark keeps the level valid |
| `LevelChain.StoreKeepsValid` | include/sl.h:2038-2041 | Filling a slot of a node not yet linked at the level keeps it valid |
| `LevelChain.SwingIsExactIff` | include/sl.h:1267-1270 | Swinging a node out to a successor loaded earlier takes off the level that node and no other, on every walk from every node, and brings none back, if and only if that successor is still the node's at the swing; this covers the unlink by identity, the demotion (sl.h:1468-1475) and the promoter's undo (sl.h:1366-1368) |
| `LevelChain.ReachedIsReachable` | tests/test_concurrent.c:1478-1490 | What a walk from the head meets is exactly what some path of pointers from the head leads to, in every level whose pointers lead forward |
| `LevelChain.LinkedIsReached` | tests/test_concurrent.c:1478-1490 | In a valid level the nodes a walk from the head meets are exactly those of the auxiliary set `linked`; a node ever linked and not marked is always among them |
| `LevelChain.WalkIsSorted` | DESIGN.md:62-75 | A walk along a level in order meets no smaller key |
| `LevelChain.LinkWalks` | include/sl.h:2043-2049 | A link adds the new node to exactly the walks that pass its predecessor and changes no other walk |
| `LevelChain.EvolvesTransitive` | DESIGN.md:62-75 | What one write preserves of the past -- order of all nodes ever linked, marks and the pointers they freeze -- any number of writes preserves |
| `LevelChain.WriteKeepsForward` | include/sl.h:1225-1324 | Every one of the writes -- plain store, link, swing, mark, erased marks and outdated successors included -- keeps all pointers leading forward, so that every walk ends at the tail, and reorders nothing |
| `Removing.GoOnStands` | include/sl.h:1225-1324 | Every access of the unlink by identity -- head height, pointer of the walk, swing of a marked node on the way, load and swing of the node itself, verification, and the new round if a swing failed or the node is still met -- leads from nodes that were linked at their level to such nodes, along pointers that lead forward |
| `Removing.UnlinkStays` | include/sl.h:1225-1324 | No write of any thread, and no number of them, changes what those nodes are known to be |
| `Removing.SwingFits` | include/sl.h:1261-1300 | Its two swings are ones the order of the level allows, with the level changed in between in whatever way |
| `Removing.VerifiedIff` | include/sl.h:1255-1324 | Whatever other threads write in between, a sweep is followed by the verification of all its levels exactly if none of its swings, of helping included, failed; otherwise by another sweep |
| `Removing.NeverPast` | include/sl.h:1261-1300 | Nor does the sweep ever go past a larger key |
| `Sweeping.AccessComesCloser` | include/sl.h:1248-1254 | Every access of a remover brings it closer to the end of its level, one level down, on to its verification, or to its end |
| `Sweeping.AccessIsClean` | include/sl.h:1261-1300 | As long as nobody interferes, no level a round has swept leads to the node, and on the level at hand it is still ahead if it can be reached at all -- nodes with an equal key are passed |
| `Completing.RemoverRetires` | include/sl.h:1225-1324 | From any state of any run, erased marks or not, a remover left alone at any point of its work retires its node; after a round from its start no level leads to the node |
| `Completing.EndedIsLinked` | include/sl.h:2077-2111 | After any run, an insert that has ended has linked its node at every level of the tower, unless a remover had begun to mark it: no level is given up over a failed compare-and-swap |
| `Completing.FindPlace` | include/sl.h:1718-1765 | A search of one level left alone takes out the marked nodes it meets and ends between a smaller key and one that is not smaller |
| `Completing.InsertGetsDone` | include/sl.h:1980-2111 | From any state of any run, erased marks or not, an insert left alone at any point of its work comes to its end, with the node in the list and, unless marked, linked at every level of its tower |
| `LockFree.InitInv` | include/sl.h:890-933 | An initialised list satisfies the invariant |
| `LockFree.StepKeepsInv` | include/sl.h:1967-2162 | Every step of every thread -- fill, level-0 CAS, phase-6 test, unconditional store and swing, phase-6b swing, help-unlink, mark, every access of the unlink by identity, head grow and shrink -- keeps all levels in order, level 0 a proper chain, towers without gaps, and the bookkeeping of every insert and removal right |
| `LockFree.StepKeepsLevel` | DESIGN.md:62-75 | A step keeps each level in order and clears no mark of a linked node, nor moves the pointer it freezes, nor lets two nodes change places |
| `LockFree.OthersUntouched` | include/sl.h:2428-2539 | A step of a thread working for another node leaves this node's slots, insert and removal as they are |
| `LockFree.RunKeepsInv` | DESIGN.md:62-75 | The invariant holds after every prefix of every interleaved run, runs in which a mark is erased included |
| `LockFree.RunEvolves` | DESIGN.md:62-75 | Between any two states of any run, at every level: marks of linked nodes are never cleared, their pointers stay, and order is kept |
| `Retirement.StaysSafeIff` | include/sl.h:1306-1322 | What the remover's scan has established about a level survives a step with no outdated swing exactly if that step is neither a phase-6 swing of the same node behind the scan nor a splice of it from behind a node off the chain on the scan's way |
| `Retirement.StepIsExactIff` | include/sl.h:1266-1273 | A step takes off a level only the node it names and brings none back, if and only if it is not a swing to a successor that is no longer the node's |
| `Retirement.ReturnsIff` | include/sl.h:1266-1273 | A node that cannot be reached any more comes back in exactly one way: a remover swings a node of the chain to an outdated successor from which a walk still meets it |
| `Retirement.RunIsSafeIff` | include/sl.h:1225-1324 | Over whole runs, erased marks included, at every level: all removers' findings stay true and all unlinks are exact if and only if no step overtakes a scan, hides a node from it, or swings to an outdated successor |
| `Retirement.LevelZeroNeverSpoiled` | include/sl.h:2474-2487 | At level 0 none of the three happens in any run |
| `Retirement.UnerasedIsOnlyOvertaken` | include/sl.h:2078-2111 | As long as no mark has been erased, overtaking is the only one of the three that can happen |
| `Retirement.RetiredIsUnreachable` | DESIGN.md:68-72 | In every run, a retired node cannot be reached from the head of a level where none of the three has happened -- so never of level 0 |
| `Retirement.InsertedFirstIsNeverSpoiled` | include/sl.h:2078-2111 | If nodes are marked only after their insert has returned, no mark is erased and none of the three happens at any level, so retired nodes are unreachable everywhere |
| `Descents.StandsBelow` | include/sl.h:2078-2111 | In every run: an insert that loses a mark links no further, since the level above is marked; below a level at which a node is linked, every mark a remover has set on it still stands |
| `Descents.StaysOnIff` | include/sl.h:2092-2098 | A step that is not outdated keeps every node that has lost no mark, and carries none, on the chain of an upper level where it was linked, if and only if it links none behind a node off the chain |
| `Descents.RunIsOnIff` | include/sl.h:2092-2098 | Over whole runs that do not spoil the level, if and only if no node was ever stranded so |
| `Descents.WaysAreOnChains` | include/sl.h:1715-1725 | Then every way down, entering each level at a node met one level up that is unmarked here, stays on the chains |
| `Descents.RetiredIsOnNoWay` | include/sl.h:1251-1254 | In runs that spoil no level and strand no node, no way down from the head leads to a retired node |
| `Descents.InsertedFirstIsOnNoWay` | DESIGN.md:68-72 | So it is for callers who only remove nodes whose insert has returned |
| `Revisits.SeenLeadsToSeen` | include/sl.h:1251-1254 | With no mark erased: the nodes that were on the chain of a level at some moment since a given one lead to none but such nodes, for good, also after they were unlinked |
| `Revisits.NeverHeldAgain` | include/sl.h:1251-1254 | Retire a node in any run, start a lookup at the top after that, and interleave its reads with any steps of any threads: it never holds the node, as long as no mark is erased and no remover overtaken |
| `Revisits.InsertedFirstIsNeverHeldAgain` | DESIGN.md:390-404 | Always, for callers who only remove nodes whose insert has returned |
| `Mishaps.OvertakingHappens` | include/sl.h:2078-2111 | A run of the code's steps, the remover's whole sweep and verification among them, after which an insert's late swing overtakes it and makes the retired node reachable at level 1 |
| `Mishaps.OutdatedSwingHappens` | include/sl.h:1266-1273 | A run in which a remover swings its node, whose mark was erased, to an outdated successor: another node, retired after a whole sweep and verification, long inserted and off the level, is reachable again |
| `Mishaps.HidingHappens` | include/sl.h:1306-1322 | A run in which a remover sweeps every level, verifies, and misses its node, which is linked behind the sweep and then spliced out from behind a node off the chain: it is retired and stays reachable |
| `Stranding.StrandingHappens` | include/sl.h:1715-1725 | A run that strands a node, after which a retired node can be reached from the head of no level, and yet a way down leads to it |
| `Erasure.ClearsIff` | include/sl.h:2083-2091 | A possible step clears a mark, at any level of any node linked or not, if and only if it is phase 6's plain store onto a slot marked since its test |
| `Erasure.RunKeepsMarksIff` | include/sl.h:2083-2091 | Over whole runs: every mark once set still stands if and only if no such store hits a marked slot |
| `Erasure.RunKeepsKept` | DESIGN.md:62-75 | As long as none does, every level is a proper chain: only marked nodes are off it, and removers swing out marked nodes only |
| `Erasure.MarkCanLandBeforeStore` | include/sl.h:2083-2091 | Whenever an insert is about to do that store, a remover's marks can land first, and the store then erases one |
| `Membership.MembersAreTheUnmarkedChain` | include/sl.h:1845-1915 | Being in the list (linked and unmarked at level 0) is being met unmarked on a walk from the head |
| `Membership.MembershipChanges` | DESIGN.md:73-76 | Only the level-0 CAS of an insert adds a node and only its level-0 mark removes it; no other step changes membership |
| `Strays.UnmarkedIsMemberIff` | include/sl.h:1869-1900 | A node seen unmarked at some level is a member at that moment if and only if it is no stray there |
| `Strays.StrayAfterIff` | include/sl.h:2460-2487 | A step leaves a node a stray at an upper level if and only if it marks it at level 0 while its linked slot there is unmarked, or links it there, unmarked, after that mark -- or finds it a stray and does not mark it there |
| `Strays.RunMadeStrayIff` | include/sl.h:2460-2487 | Over whole runs: which nodes are strays, told from the steps alone |
| `Strays.KeptHasNoStrays` | include/sl.h:2460-2487 | As long as no mark is erased there are no strays, because marks go top down |
| `Membership.StepKeepsFlagOk` | include/sl.h:1995-2004 | While `slh_has_dups` is false the members have distinct keys, also with concurrent inserts of one key |
| `Membership.RunKeepsFlagOk` | DESIGN.md:338-351 | The same after every prefix of every run |
| `Lookups.NonePastAfterIff` | include/sl.h:1845-1915 | A step puts a member with the key behind a lookup that had none behind it if and only if it links one before the node the lookup stands on at level 0 |
| `Lookups.AbsentIsWrongIff` | include/sl.h:1845-1915 | The answer "absent" is wrong at the moment of the last read if and only if a node that slipped in so is a member then |
| `Lookups.AbsentWasAbsent` | include/sl.h:1845-1915 | "Absent" is right at some moment of the walk unless the node that slipped in was a second one of a key present at that moment; puts and deletes of the key do no harm |
| `Lookups.UnflaggedNeverDoubles` | include/sl.h:1995-2004 | No second node slips in as long as `slh_has_dups` is false |
| `Lookups.FoundWasSeen` | include/sl.h:1845-1915 | An answer with a node, on whatever level the early exit was: at some moment of the walk the node had the key and was unmarked at that level |
| `Lookups.LookupIsLinearizable` | include/sl.h:1845-1915 | From any state any run can reach, every read of the whole descent interleaved with any steps: "absent" is right at some moment unless a second node slips in, and a node found was a member at the moment it was seen if and only if the run up to there had not made it a stray |
| `Lookups.LookupIsRight` | include/sl.h:1845-1915 | In a list that never holds a duplicate "absent" is always right at some moment of the walk, whatever is put and deleted beside it; and a node found always was a member, if no mark is erased |
| `FirstMatch.LookupFindsFirst` | include/sl.h:1845-1915 | In any state of a run that erased no mark, a lookup that nobody disturbs ends; it answers with the first of the members with the key, duplicates or not, or "absent" if there is none |
| `FirstMatch.EarlyExitIsUnflagged` | include/sl.h:1886-1899 | Beside writers: an answer from an upper level was given on a flag read as clear, and at that moment no other member had the key if the node was a member |
| `FirstMatch.FoundIsFirstIff` | tests/test.c:2628-2670 | A node found at level 0 was a member when it was compared, and the first with its key if and only if no node that had slipped in behind the walk was a member before it then |
| `FirstMatch.FoundIsFirst` | tests/test.c:2628-2670 | So it was the first if nothing slipped in, or if there were no duplicates yet |
| `Mislookups.PresentKeyIsMissed` | include/sl.h:1845-1915 | A run and a lookup beside it that answers "absent" though the key is in the list all the time: a second node slips in before the one it stands on, which is then removed |
| `Mislookups.StrayIsFound` | include/sl.h:1845-1915 | A run that erases a mark, after which a lookup exits early with a node that is not in the list |
| `Promotion.StepKeepsInv` | include/sl.h:1613-1682 | Every access of a promotion (raise, read, store, publish, re-check, load, undo, unlink), of a complete remove of the same node, and every load and write of any other threads at any level, behind the promoted node too, keeps the joint invariant |
| `Promotion.RunKeepsInv` | tests/test_concurrent.c:1492-1572 | The same over every interleaving |
| `Promotion.EndedHeight` | include/sl.h:1671-1677 | When the promotion is over the node stands one level higher if and only if it was published there: a failed one takes the height back |
| `Promotion.StepKeepsSortedIff` | include/sl.h:1654-1671 | A step takes the new level out of order if and only if it publishes the node, with the successor it re-read without comparing keys, in front of a smaller key |
| `Promotion.RunIsSortedIff` | include/sl.h:1654-1671 | Over whole runs, whatever the other threads insert and remove: the new level is in order in every state if and only if the node is never published in front of a smaller key |
| `Promotion.RunKeepsOtherLevelsSorted` | include/sl.h:1654-1671 | All other levels stay in order in any case |
| `TakingBack.StepIsExactIff` | include/sl.h:1366-1368 | The promoter's undo, like any other unlink beside it, leaves every other node exactly where it was if and only if the pointer loaded is still the node's at the swing |
| `TakingBack.StaysSafeIff` | include/sl.h:1361-1370 | What promoter and remover know about a level survives a step with no outdated swing exactly if it neither hides the node from its scan nor takes it back from a predecessor off the chain while it is on it |
| `TakingBack.RunIsSafeIff` | tests/test_concurrent.c:1492-1572 | Over whole runs, at every level: their findings stay true and no other node is ever touched if and only if no step is outdated, hides, or takes back aside |
| `TakingBack.EndedIsUnreachable` | tests/test_concurrent.c:1538-1572 | Once the promotion has ended and the remove has retired the node, the node is off every level at which none of these has happened, whatever the interleaving |
| `Settling.PromotionEnds` | include/sl.h:1576-1683 | From any state of any run, whatever others wrote before, a promotion left alone comes to its end: raised, given up, or taken back |
| `Settling.RemoveEnds` | include/sl.h:1225-1324 | The same of the remove beside it: it marks all levels and retires the node |
| `Relapses.UndoBringsBack` | include/sl.h:1366-1368 | A run in which the promoter's undo swings to where the node pointed before, and a removed node taken out from behind it is on the level again |
| `Relapses.RetiredStaysReachable` | include/sl.h:1361-1370 | A run in which the remover sweeps and verifies every level, the undo succeeds on a predecessor that was itself taken off the level by then, promotion and remove end, and the retired node is still reachable |
| `Relapses.PublishUpsets` | include/sl.h:1654-1671 | A run in which an insert behind the recorded predecessor makes the publish put the level out of order |
| `Epochs.StepKeepsInv` | include/sl.h:2808-2876 | Every access of register, pin, unpin, retire, advance and reclaim keeps the invariant linking epochs, buckets, node stages, held references and the unlinked nodes a thread may still come upon |
| `Epochs.RunKeepsInv` | include/sl.h:2718-2876 | The same after every prefix of every run of any threads |
| `Epochs.SwingFindsNoReclaimer` | include/sl.h:2835-2876 | An advance of the epoch succeeds only when no thread still owes the emptying of an old bucket |
| `Epochs.FreedIsUnreferenced` | DESIGN.md:390-404 | In every state of every run a freed node is referenced by no thread, can be got hold of by none -- also through unlinked nodes -- and was freed once |
| `Epochs.FreeHappensOnce` | include/sl.h:2835-2876 | At the step that frees a node it was never freed before and no thread holds it; later steps do not free it again |
| `Epochs.FreedStaysUnreferenced` | README.md:544-575 | From the moment of the free on, for good: no reference, no re-acquisition, no second free |
| `Epochs.EpochIsMonotone` | include/sl.h:2835-2876 | The epoch never goes back, and inside a critical section it is at most one ahead of the thread's published epoch |
| `EpochProgress.OnlyAdvanceStep` | include/sl.h:2835-2876 | At every point of an attempt to advance the thread has exactly one step to take |
| `EpochProgress.AttemptEnds` | include/sl.h:2844-2856 | From any point of an attempt that nobody disturbs: it moves the epoch by one if every slot it has still to look at is inactive or not behind the epoch it loaded, and gives up with nothing changed if not |
| `EpochProgress.AdvancesIff` | include/sl.h:2835-2876 | After a push, a thread that nobody disturbs advances the epoch if and only if every slot in use is inactive or up to date |
| `EpochProgress.Reclaims` | include/sl.h:2858-2876 | The thread that has moved the epoch, if nobody disturbs it, frees exactly the nodes retired two epochs ago, each once, and touches no other |
| `EpochProgress.Round` | include/sl.h:2808-2876 | A thread that is alone enters its section, unlinks and retires a node, advances the epoch by one, frees just what was due, and leaves with nothing owed |
| `EpochProgress.FreedInTwoRounds` | tests/test.c:2372-2401 | A node retired by a thread that is alone is freed by its next retirement, once; no more than the nodes of the last epochs ever wait |
| `EpochProgress.RegistersAlone` | include/sl.h:2718-2735 | The first thread to register is in that position |
| `EpochProgress.PushedIsFreed` | include/sl.h:2801-2807 | In every run of any threads: once the epoch is two beyond that of a push and the old bucket has been emptied, the node has been freed once, or is in the hands of a thread that cannot end without freeing it |
| `Sections.SlotTells` | include/sl.h:2718-2749 | After any run a slot can be claimed exactly if nobody is registered there, a thread outside its section can always unregister, and only threads in or entering a section are active |
| `Sections.AcquiredIsNotFreed` | include/sl.h:2642-2645 | Whatever all threads do, a node a thread got hold of in its section is not freed before it unpins |
| `Sections.UnlinkedIsMetIff` | DESIGN.md:390-404 | A pinned thread can get hold of a node after its unlinking exactly if it was in its section then and has not left it |
| `Towers.BelowIs` | include/sl.h:1700-1785 | The number of nodes before a key is the only position with smaller keys before and none after |
| `Towers.InsertedInOrder` | include/sl.h:2038-2049 | Inserting before the first key that is not smaller keeps the order, and distinct keys unless an equal one was there |
| `Towers.LinkLevel` | include/sl.h:2078-2111 | Swinging one level's recorded predecessor to the new node extends the linked part of its tower by that level and disturbs no other |
| `Towers.InsertedShape` | include/sl.h:2020-2049 | Once all its levels are linked, the new node is part of a well-shaped list: every level threads exactly the nodes tall enough, in order |
| `Towers.TowerAscending` | DESIGN.md:88-146 | Every level of an ordered list is itself ordered |
| `Unlinking.SweptMembers` | include/sl.h:1261-1300 | Membership after one sweep pass: a node survives if and only if it is neither the target nor a marked node met before the pass ends |
| `Unlinking.SweptInOrder` | include/sl.h:1261-1300 | What a pass leaves is still ordered, distinct and sorted |
| `Unlinking.SweptRemovesExactly` | DESIGN.md:535-548 | If the target is the only marked node, the pass removes exactly it, whatever equal keys stand on either side |
| `Unlinking.SweepSplices` | include/sl.h:1261-1300 | A splice in mid-pass turns the pointers into those of the pass one node further on |
| `Unlinking.SweptOneMore` | include/sl.h:1255-1300 | Sweeping the next lower level leaves the levels above swept and those below untouched |
| `Unlinking.SweptTower` | include/sl.h:1255-1300 | A full sweep for a marked node leaves, on every level, exactly the other nodes of that level's tower in order |
| `Unlinking.UnlinkedShape` | include/sl.h:1255-1324 | After marking and a full sweep of a list whose nodes stand below the head height, the list without the node is well shaped on every level |
| `Unlinking.TopEmpty` | include/sl.h:2514-2526 | A level on which the head points at the tail has no nodes, so it may be given up |
| `Searching.StepRight` | include/sl.h:1700-1785 | One pointer step of a descent: either still before the key, or the walk of the level is over at its place |
| `Searching.PathBelow` | include/sl.h:1700-1785 | The predecessor a search recorded on level i is the last node before the place searched for on every higher level it reaches, and on the others the last one is the last before it |
| `Searching.SwingFitsIff` | include/sl.h:2093-2098 | On a sound pair of recorded neighbours, the predecessor points at the successor if and only if they are the neighbours of the place |
| `Inserting.PartlyInserted` | include/sl.h:2077-2111 | While an insert is linked below a level, the pointers form a well-shaped list in which the new node ends there |
| `Inserting.FoundAfresh` | include/sl.h:2100-2102 | What a search finds above that level in this list is what it would find without the node |
| `Inserting.SlotStored` | include/sl.h:2088-2090 | Rewriting the node's own slot of a level it is not linked at disturbs nothing |
| `Resizing.PromotedShape` | include/sl.h:1613-1682 | Linking a node into the next level behind its predecessor there gives a well-shaped list with that one node one level higher |
| `Resizing.OnlyPredecessor` | include/sl.h:1428-1501 | Whoever leads to a node at a level is its predecessor there, the only one |
| `Resizing.PredecessorLeads` | include/sl.h:1428-1501 | And the last node before it that is tall enough does lead to it there, unmarked |
| `Resizing.DemotedShape` | include/sl.h:1428-1501 | Splicing a node out of its top level gives a well-shaped list with that one node one level lower |
| `OrderedItems.RankIs` | tests/test_property.c:125-140 | The place of a key in an ordered list is determined by the keys on either side |
| `OrderedItems.HoldsIff` | tests/test_property.c:125-140 | The key stands at its place if and only if it stands anywhere |
| `OrderedItems.PutKeepsOrder` | tests/test_property.c:148-166 | A put keeps the order, and keeps keys distinct when the key was new |
| `OrderedItems.DelKeepsOrder` | tests/test_property.c:169-181 | A delete keeps the order and distinct keys |
| `OrderedItems.DelAfterPut` | include/sl.h:4046-4106 | Deleting a key just put gives the old list back, duplicates included |
| `OrderedItems.SetKeepsOrder` | include/sl.h:4088-4093 | Overwriting a value keeps order and distinctness |
| `SkipList.List.constructor` | include/sl.h:890-933 | A new list is valid and empty |
| `SkipList.List.WalkLevel` | include/sl.h:1700-1785 | From where the level above left off, the walk along a level ends between the nodes with smaller keys and the rest |
| `SkipList.List.Search` | include/sl.h:1700-1785 | The same search on any well-shaped pointers, also with a node linked only part of the way up |
| `SkipList.List.Locate` | include/sl.h:1700-1785 | The full search: the neighbours of the key's place on every active level, and the first equal node if there is one |
| `SkipList.List.Lookup` | include/sl.h:1845-1915 | The early-exit lookup returns the first equal node in level-0 order, the one a remove takes, with or without duplicates |
| `SkipList.List.OnlyMatch` | DESIGN.md:317-351 | In a list that never held duplicates, a match met on any level is the first match of level 0 |
| `SkipList.List.LookupWithSplay` | include/sl.h:1929-1957 | Whether or not a rebalance is due, an exact match gives the first equal node and the list stays valid with the same nodes; when one is due, a match has moved just as its hit counts ask for, and else no height has changed |
| `SkipList.List.PositionGte` | include/sl.h:2216-2248 | The first node not below the key, or none |
| `SkipList.List.PositionGt` | include/sl.h:2257-2289 | The first node above the key, past all its duplicates, or none |
| `SkipList.List.ScanFrom` | include/sl.h:2227-2247 | The level-0 scan both use: from the key's predecessor to the first key not below a limit |
| `SkipList.List.PositionLt` | include/sl.h:2325-2340 | The last node below the key, or none |
| `SkipList.List.PositionLte` | include/sl.h:2298-2317 | The first equal node if there is one, otherwise the last node below the key; that is the last node not above the key if and only if no second node has the key |
| `SkipList.TwiceIff` | tests/test_property.c:346-412 | The first two nodes at the place have the key if and only if any two nodes have it |
| `SkipList.List.LteOfTwo` | include/sl.h:2298-2317 | A list of two equal keys, built by the operations, in which the answer is not the last node not above the key |
| `SkipList.List.Update` | include/sl.h:2381-2419 | Overwrites the value of the first equal node and nothing else |
| `SkipList.List.Insert` | include/sl.h:1967-2162 | Refuses an equal key, contents unchanged, unless duplicates are wanted; otherwise links the node before the first equal one on all its levels and sets the duplicates flag exactly when it met an equal key -- although meeting one may rebalance and leave the recorded path out of date |
| `SkipList.List.LocateAndSplay` | include/sl.h:1982-1993 | After the rebalance an insert performs on an equal key, its old path is exact at level 0 and sound above: predecessors still on their level before the place, successors not before it |
| `SkipList.List.StillSound` | include/sl.h:1992-2009 | Sound because a rebalance lowers no predecessor on the path |
| `SkipList.List.LinkLevels` | include/sl.h:2077-2111 | The bottom-up loop links every level of the new tower, and ends with the true level-0 predecessor in hand |
| `SkipList.List.LinkUpper` | include/sl.h:2079-2110 | The retry loop of one level terminates, after one new search at most, with the node linked there |
| `SkipList.List.Swing` | include/sl.h:2093-2098 | The swing succeeds if and only if the path is still right at this level, and then links the node there; else it changes nothing |
| `SkipList.List.LocateAgain` | include/sl.h:2100-2102 | The new search, run while the node is linked on the lower levels only, gives the exact neighbours on the levels still to link |
| `SkipList.List.LinkBase` | include/sl.h:2043-2049 | The level-0 swing makes the node a member; with one thread it never fails, even after a rebalance |
| `SkipList.List.SetBack` | include/sl.h:2113-2124 | Every back pointer names the level-0 predecessor after an insert |
| `SkipList.List.SweepLevel` | include/sl.h:1261-1300 | One sweep pass terminates, never retries in one thread, and leaves its level as the pure sweep function says, other levels and all marks unchanged |
| `SkipList.List.StillLinked` | include/sl.h:1306-1322 | The verification walk of a level, which stops at the first larger key, finds the node if and only if it is linked there |
| `SkipList.List.UnlinkFully` | include/sl.h:1225-1324 | Sweeps all levels up to the larger of head and node height, a head that shrank below the node included, from the top down, verifies, and terminates in one round with every level swept |
| `SkipList.List.MarkAll` | include/sl.h:2460-2487 | Marks exactly the node's own pointers up to its height, targets unchanged |
| `SkipList.List.Remove` | include/sl.h:2428-2539 | Removes exactly the first node with the key from every level, or reports absence and changes nothing |
| `SkipList.List.SkipBack` | include/sl.h:2496-2509 | Every back pointer names the level-0 predecessor after a remove |
| `SkipList.List.Shrink` | include/sl.h:2514-2526 | Gives up empty levels until the top one is in use |
| `SkipList.List.PrevValidated` | include/sl.h:1042-1090 | Returns the true level-0 predecessor (none for the first or an absent node) whatever the back hint is -- nothing, head, tail, any live node or a removed node -- looking through marks, and repairs the hint |
| `SkipList.List.OnLevelZero` | include/sl.h:1042-1090 | An unmarked level-0 pointer to a node comes from its predecessor alone, so a hint that has one can be believed |
| `SkipList.List.Demote` | include/sl.h:1428-1501 | Lowers a node by one level exactly if that level is among those searched and the recorded predecessor there is the true one; the list stays well shaped |
| `SkipList.List.GrowHead` | include/sl.h:1580-1607 | New head levels lead straight to the tail and change no other pointer |
| `SkipList.List.Promote` | include/sl.h:1503-1682 | Raises a node by one level, behind the predecessor the search recorded, exactly if the search reached that level, and grows the head exactly if the node stands on the top level and the hits justify more levels than there are; the list stays well shaped |
| `SkipList.List.Rebalance` | include/sl.h:1374-1685 | Whatever the hit counts ask for along the recorded path, nodes, order, keys and values stay the same, every level stays a sorted sublist, no predecessor on the path is lowered, the matched node moves exactly as its own wish says, and the head grows only to what a wish names |
| `SkipList.List.PredecessorsStayUp` | include/sl.h:1399-1501 | A predecessor on the path is its own recorded predecessor at its top level, so only the matched node is ever demoted |
| `SkipList.List.LocateWithSplay` | include/sl.h:1798-1804 | A search that also rebalances finds what the plain one finds, leaves the contents alone, its level-0 predecessor stays right, and a match has moved just as its hit counts ask for; without a match nothing moves |
| `SkipList.List.Put` | include/sl.h:4046-4080 | Put and dup as seen by the caller: return code, ordered contents and duplicates flag |
| `SkipList.List.SetValue` | include/sl.h:4088-4093 | Set: return code, and the first equal item's value replaced |
| `SkipList.List.Del` | include/sl.h:4101-4106 | Del: return code, and the first equal item gone |
| `SkipList.List.Get` | include/sl.h:3988-4014 | Get and contains: presence, and the value of the first equal item |
| `SkipList.ItemsRank` | tests/test_property.c:188-214 | The place of a key among the nodes is its place among the items seen by the caller, and those are ordered |
| `SortedArray.Model.Find` | tests/test_property.c:125-140 | The halving search returns the index, or the insertion place encoded below zero, for every key |
| `SortedArray.Model.Insert` | tests/test_property.c:148-166 | Inserts in order unless the key is there; growing the arrays loses nothing |
| `SortedArray.Model.Remove` | tests/test_property.c:169-181 | Removes exactly the key's item |
| `SortedArray.MoveUp` | tests/test_property.c:148-166 | Opens a gap in place and fills it |
| `SortedArray.MoveDown` | tests/test_property.c:169-181 | Closes a gap in place |
| `Refinement.ListMatchesModel` | tests/test_property.c:188-214 | The comparing walk answers yes if and only if list and model hold the same items in the same order |
| `Refinement.Step` | tests/test_property.c:222-295 | One random operation on both sides: same return code, same contents |
| `Refinement.PropModel` | tests/test_property.c:222-295 | The whole property test never fails, for every sequence of operations, every choice of tower heights and every rebalance on the way |
| `Snapshots.Store.Put` | include/sl.h:2149-2153 | Stamps a new node with the running era while a snapshot is open |
| `Snapshots.Store.Preserve` | include/sl.h:3035-3104 | Copies a node that is older than the latest snapshot to the front of the preserved list; newer nodes need no copy |
| `Snapshots.Store.SetValue` | include/sl.h:2381-2419 | Preserves and restamps the node while a snapshot is open, and overwrites the value in any case |
| `Snapshots.Store.Del` | include/sl.h:2428-2459 | Preserves, then removes |
| `Snapshots.Store.Snapshot` | include/sl.h:2984-2992 | Opens a new era and returns it |
| `Snapshots.Store.Restore` | include/sl.h:3127-3250 | The three loops of a restore -- remove newer nodes, collect old copies, reinsert them -- compute the restore function, and leave no snapshot open |
| `Snapshots.Store.RemoveNewer` | include/sl.h:3127-3250 | Removes exactly the nodes newer than the era, and adds no preserved copy of that era |
| `Snapshots.CallIsPlain` | include/sl.h:2381-2459 | With a snapshot open or not, a put, set, delete or snapshot does to what the caller sees just what it does to a plain map |
| `Snapshots.RunIsPlain` | include/sl.h:2381-2459 | The same over any sequence of calls |
| `Snapshots.RunKeepsSince` | include/sl.h:3035-3104 | After any calls since a snapshot, each key's node is untouched or a copy of what it was is preserved, and nothing else of that era is |
| `Snapshots.ApplyKeepsOk` | include/sl.h:3035-3104 | Every put, set, delete and snapshot keeps the bookkeeping of eras: none ahead of the counter, nothing preserved newer than the latest snapshot |
| `Snapshots.RestoreKeepsOk` | include/sl.h:3127-3250 | A restore keeps the bookkeeping of eras in order |
| `Snapshots.RestoreOfEraGives` | include/sl.h:3107-3126 | Once a snapshot has been taken, no later calls matter to a restore of its era or any earlier one: it gives what the list held of that era and before when the snapshot was taken, plus, for the other keys, the newest copies of that age preserved by then |
| `Snapshots.RestoreGives` | DESIGN.md:460-471 | After any puts, sets, deletes and further snapshots, restoring an era gives the contents of that moment, plus copies preserved earlier for keys absent then |
| `Snapshots.RestoreIsExactIff` | tests/test_property.c:571-619 | So a restore is exact, whatever happens afterwards, if and only if every key on the preserved list was live when the snapshot was taken |
| `Snapshots.FirstSnapshotIsExact` | tests/test.c:1771-1825 | The first snapshot of a list, or after a restore, always restores exactly |
| `Snapshots.DeletionSpoilsLaterSnapshot` | include/sl.h:3127-3250 | Put, snapshot, delete, snapshot, restore: the deleted key comes back |
| `Snapshots.SecondRestoreGives` | include/sl.h:3107-3126 | After one restore, any puts, sets, deletes and snapshots, a restore to an earlier era gives the nodes of that era and before as they were when the next snapshot was taken, or are now |
| `Snapshots.OlderEraGives` | include/sl.h:3107-3126 | A restore to a later era leaves of an older snapshot just the nodes untouched since |
| `Snapshots.TouchesIff` | include/sl.h:2149-2153 | While no snapshot is open a call changes what the list holds of an era and before if and only if it puts in a new node or overwrites or deletes one of that age |
| `Snapshots.OlderEraIsExactIff` | include/sl.h:3107-3126 | The restore of an older era after a restore and any calls is exact if and only if, when the next snapshot was taken, each of its keys had a node of its age with the value it had, and no other key had one |
| `Snapshots.OlderEraAtOnceIsExactIff` | include/sl.h:3127-3250 | With no calls in between: if and only if each key of the older snapshot still has the node it had |
| `Snapshots.PutAfterRestoreStays` | include/sl.h:2149-2153 | A node put while no snapshot is open survives every later restore |
| `RecordCodec.ValOfLe` | include/sl.h:3329-3359 | Decoding a little-endian field gives the number encoded, for every number that fits |
| `RecordCodec.LeOfVal` | include/sl.h:3329-3359 | Encoding the decoded number gives the bytes back |
| `RecordCodec.Le64` | include/sl.h:3329-3359 | The 64-bit field is written as two 32-bit halves, low half first |
| `RecordCodec.ReadLe64` | include/sl.h:3329-3359 | The two halves are read back as one number |
| `RecordCodec.WriteLe32` | examples/ex08.c:81-99 | Four bytes are written in place and no others |
| `RecordCodec.ReadLe32` | examples/ex08.c:101-125 | Four bytes are read as one number |
| `RecordCodec.ToWord` | examples/ex08.c:81-99 | A key is written as the 32-bit word congruent to it |
| `RecordCodec.FromWord` | examples/ex08.c:101-125 | A word is read as the 32-bit int congruent to it |
| `RecordCodec.WriteEntry` | examples/ex08.c:81-99 | The writer fills exactly the declared size with key, length and string, within the buffer |
| `RecordCodec.ReadEntry` | examples/ex08.c:101-125 | The reader accepts a record exactly when its length is 8 plus the declared string length, and never reads beyond it |
| `RecordCodec.ReadOfWrite` | examples/ex08.c:81-125 | Reading what was written gives the node, an empty string and none being the same |
| `RecordCodec.WriteOfReadIff` | examples/ex08.c:81-125 | Writing what was read gives the record, if and only if its string has no NUL byte |
| `Archive.SaveNodes` | include/sl.h:3375-3452 | The loop over one growing scratch buffer writes the frames of the nodes in order, up to the first record beyond the limit |
| `Archive.Serialize` | include/sl.h:3375-3452 | Header and frames, or EOVERFLOW with the frames before the offending node |
| `Archive.Stream.Read` | include/sl.h:3454-3538 | Reads all bytes asked for, or fails |
| `Archive.ReadFrame` | include/sl.h:3454-3538 | Which error a cut, oversized or short record gives, and the record's exact bytes otherwise |
| `Archive.LoadRecord` | include/sl.h:3454-3538 | One record goes into the list, or the list is unchanged and the record's own error is returned |
| `Archive.Deserialize` | include/sl.h:3454-3538 | For every sequence of bytes: it is loaded in full if and only if it is an archive -- magic, version 1, a count, and as many complete frames of proper size with distinct keys; of any other file the error is that of the first fault in it, and the list holds exactly the nodes of the frames before |
| `Archive.OpenIsByFormat` | include/sl.h:3454-3538 | What the load function gives, told by the bytes of the file alone: success just for the archives, and the first fault of any other file with the nodes before it |
| `FileFormat.OkIffArchive` | include/sl.h:3454-3538 | A file has one reading at most: what was loaded in full is an archive, and a file with a fault is none |
| `Archive.GoodNodesLoad` | include/sl.h:3454-3538 | A file that begins with a header and good frames loads up to there with exactly those nodes, whatever follows |
| `Archive.RoundTrip` | tests/test_property.c:304-340 | Loading a saved list gives it back, and saving that gives the same bytes |
| `Archive.BadRecordStops` | tests/test.c:2118-2168 | A bad record stops the load with its own error; the list is exactly the records before it |
| `Archive.TruncatedFile` | tests/test.c:2118-2168 | A file cut anywhere inside a frame fails with EIO and keeps exactly the complete frames' nodes |
| `Framing.FrameStands` | include/sl.h:3375-3452 | In a file of frames every frame stands at the sum of the sizes before it |
| `Framing.LoadAlong` | include/sl.h:3454-3538 | A frame-by-frame load that steps along given offsets and lists arrives at any one of them |
| `SplayHeight.DivisionIsExact` | DESIGN.md:102-111 | Rounding the quotient down loses nothing: the integer test is the rational one |
| `SplayHeight.TargetHeight` | DESIGN.md:102-111 | A node is to rise exactly below K-1-floor(log2(T/u)) and to sink exactly above |
| `SplayHeight.SettledIff` | DESIGN.md:102-111 | The formula asks for neither direction at one height only |
| `SplayHeight.GateClosedIff` | include/sl.h:1552-1574 | The gate refuses a promotion exactly if the node has more than a 4096th of all hits and the node that would follow at the target level at least four fifths of its own |
| `SplayHeight.GrownHeadIs` | include/sl.h:1589-1590 | The height the head may grow to is the logarithm of all hits to base 2, rounded down |
| `SplayHeight.VisitMovesIff` | include/sl.h:1374-1685 | With histories of four hits and lists of two levels or more, a visit raises the matched node exactly if the formula asks for it and the gate is open, and lowers it exactly if the formula asks for it and it stands below the head height; by one level at most |
| `SplayHeight.RestsIff` | include/sl.h:1374-1685 | A visit leaves the matched node alone exactly at the formula's height, below it at a closed gate, at the head's height or above, and in short lists and histories |
| `SplayHeight.VisitApproaches` | include/sl.h:1374-1685 | A visit that moves the node brings it one level closer to the formula's height, and never past |
| `SplayHeight.Settle` | include/sl.h:1374-1685 | Repeated visits end; a node above its height comes down to it, one below rises to it or to the first closed gate -- so they end at the formula's height if and only if every gate on the way is open -- after as many visits as levels moved |
| `SplayHeight.Ilog2Inv` | tests/test_splay_verify.c:105-118 | The loop returns the negated number of doublings that first reach 1, and terminates for every positive ratio |
| `SplayHeight.ExpectationIsOffByAtMostOne` | tests/test_splay_verify.c:166-172 | The settled height exceeds the height the test expects by 0 or 1, and by 0 exactly if T/u is a power of two |
| `FullPeriod.PowerStep` | tests/munit.c:914-921 | 2^k steps of such a generator move every number by an odd multiple of 2^k |
| `FullPeriod.Reaches` | tests/munit.c:914-921 | Modulo every 2^k, every residue is reached from every other in fewer than 2^k steps |
| `FullPeriod.ReturnsIff` | tests/munit.c:914-921 | The generator is back where it was after exactly the multiples of 2^k steps |
| `MunitRandom.EveryStateIsReached` | tests/munit.c:914-921 | Every 32-bit state follows every other within 2^32 steps |
| `MunitRandom.PeriodIsFull` | tests/munit.c:914-921 | A state recurs after exactly the multiples of 2^32 steps |
| `MunitRandom.ToStateOfOutput` | tests/munit.c:923-929 | The state can be computed back from the output |
| `MunitRandom.OutputOfToState` | tests/munit.c:923-929 | Every word is the output of some state, so the output function permutes the words |
| `MunitRandom.KnownWord` | tests/munit.c:914-929 | The next state and the output of a known state, worked out by hand |
| `MunitRandom.KnownLongShift` | tests/munit.c:914-929 | The same for a state whose top bits choose a long shift |
| `MunitRandom.SaltIsXored` | tests/munit.c:1007-1031 | Draws with two salts differ just as the salts do; the salt zero leaves the output as it is |
| `MunitRandom.SomeDrawIsAccepted` | tests/munit.c:1007-1031 | Whatever the salt, some state's draw passes the rejection test |
| `MunitRandom.AtMost` | tests/munit.c:1007-1031 | The rejection loop terminates for every state and salt, with a result at most `max` |
| `MunitRandom.RandAtMost` | tests/munit.c:1033-1045 | However many attempts lose the compare-and-swap to other threads, the result is the first accepted draw from the state the last attempt replaces, reduced to at most `max`, and the shared state ends just behind that draw |
| `MunitRandom.IntRange` | tests/munit.c:1047-1060 | The result lies between the two bounds for every pair of different ints, in either order, also when the range wraps around, and is the lower one plus the first accepted draw |
| `MunitRandom.EvenIff` | tests/munit.c:1007-1031 | A draw is uniform if and only if the number of accepted words is a multiple of the number of results |
| `MunitRandom.AtMostIsEvenIff` | tests/munit.c:1007-1031 | For the threshold the code computes (from `max` before it is increased): uniform if and only if max+1 divides 2^32 - 2^32 mod max |
| `MunitRandom.UnevenForThree` | tests/munit.c:1007-1031 | For max = 2 the draw is not uniform |
| `Shuffle.PreviousOfNext` | bench/bench.c:82-91 | The xorshift update can be undone, so it is one to one on words |
| `Shuffle.NextIsZeroIff` | bench/bench.c:76-91 | Only state zero leads to state zero, so no seed ever reaches it |
| `Shuffle.KnownLow` | bench/bench.c:82-91 | The update of a known state, worked out by hand: the lowest bit is shifted up |
| `Shuffle.KnownHigh` | bench/bench.c:82-91 | The same for the highest bit, which is shifted down twice |
| `Shuffle.Rng.constructor` | bench/bench.c:76-80 | The state is the seed, or 1 for the seed zero |
| `Shuffle.Rng.Draw` | bench/bench.c:82-91 | One draw updates the state in place and returns the product, state never zero |
| `Shuffle.ShuffleArray` | bench/bench.c:93-103 | The in-place shuffle exchanges each position from the last down with the one that the remainder of the next output of the generator names |
| `Shuffle.DrawnAreChoices` | bench/bench.c:93-103 | Whatever the state, what is drawn names one position not behind it for each, so the results about all choices hold of every shuffle |
| `Shuffle.ShufflePermutes` | bench/bench.c:93-103 | Every sequence of choices gives a permutation of the array |
| `Shuffle.ShuffleIsInjective` | bench/bench.c:93-103 | Different choices give different results on an array of different elements |
| `Shuffle.ShuffleIsSurjective` | bench/bench.c:93-103 | Every permutation comes of some choices |
| `MunitParameters.InProductIff` | tests/munit.c:1575-1601 | The combinations gone through are exactly those that begin with the fixed prefix and take each value from its list |
| `MunitParameters.ProductIsLexicographic` | tests/munit.c:1575-1601 | They come in lexicographic order |
| `MunitParameters.BeforeIsStrict` | tests/munit.c:1575-1601 | So no combination comes twice |
| `MunitParameters.AllExecuted` | tests/munit.c:1575-1601 | Without fatal failures every combination is run |
| `MunitParameters.FatalStopsAtFirst` | tests/munit.c:1575-1601 | With them, from a clean report, exactly the combinations up to the first failing one are run |
| `MunitParameters.ExecutedSum` | tests/munit.c:1575-1601 | Stopping inside one block of combinations stops everything after it, through all nested loops |
| `MunitParameters.Runner.RunWild` | tests/munit.c:1575-1601 | The recursion over the array filled in place runs exactly those combinations in that order, reports failure exactly if one failed, and leaves the fixed prefix untouched |
| `MunitParameters.Runner.RunValue` | tests/munit.c:1589-1596 | One value of one parameter runs exactly its block of combinations |
| `SlotPool.IndexInvertsAddress` | include/sl.h:4463-4483 | In a pool that passed the guards an address has index i if and only if it is slot i's address; every other address gets -1 |
| `SlotPool.KnowsItsSlotsIff` | include/sl.h:4503-4509 | The pool recognises all its slots if and only if the slab's size does not wrap and there are at most 2^31 slots |
| `SlotPool.GuardsProduct` | include/sl.h:4508-4509 | The guard by division rejects exactly the products that would wrap |
| `SlotPool.SlotSize` | include/sl.h:4500-4501 | The slot size is the smallest multiple of 64 that holds the node |
| `SlotPool.ProbesEverySlotIff` | include/sl.h:4544-4561 | The search looks at every slot if and only if cursor plus capacity stays within a size_t or the capacity divides its number of values |
| `SlotPool.FailsOnlyWhenFullIff` | tests/test_property.c:626-671 | An allocation alone on the pool reports exhaustion only when all slots are in use, if and only if its search leaves no gap |
| `SlotPool.GapHappens` | include/sl.h:4544-4561 | Three slots, one free, a 32-bit cursor at its last value: the free slot is missed |
| `SlotPool.FreeUndoesClaim` | include/sl.h:4540-4575 | A claim and the release of its node leave all slots as they were |
| `SlotPool.Pool.Init` | include/sl.h:4492-4534 | Which arguments are refused, which failures give ENOMEM, and a pool with all slots free otherwise |
| `SlotPool.Pool.IndexOf` | include/sl.h:4474-4483 | An index, if given, is that of the slot at this address |
| `SlotPool.Pool.Alloc` | include/sl.h:4544-4561 | Claims the first free slot of the search and no other; nothing is claimed exactly if the search meets no free slot |
| `SlotPool.Pool.Free` | include/sl.h:4566-4575 | A slot is in use afterwards if and only if it was before and does not lie at the address |
| `SlotPool.Pool.IsFrom` | include/sl.h:4580-4583 | True exactly for the addresses of slots |
| `SlotPool.Outlet.Attach` | include/sl.h:4650-4656 | Routes a list's releases into the pool and arms the guard of its destroy; null routes them to the heap again, the guard staying armed |
| `SlotPool.Pool.Destroy` | include/sl.h:4588-4606 | Refused, the pool intact, exactly if the pool is attached and a slot is in use |
| `SlotPool.Outlet.Release` | include/sl.h:4636-4642 | A released node goes to the heap exactly if no pool is attached or it is none of its slots; of the pool's slots just the one at its address, if any, is free afterwards that was not before |
| `SlotRuns.StepKeepsInv` | include/sl.h:4544-4575 | Every access of claims, clearings, releases and hand-overs keeps: one owner per slot in use, and what an owner wrote is still there |
| `SlotRuns.RunKeepsInv` | tests/test_concurrent.c:1177-1233 | The same over every interleaving |
| `SlotRuns.EverySlotHasOneOwner` | tests/test_concurrent.c:1177-1233 | After any run no slot is in two hands (threads, list, limbo), and a slot is in use exactly if it is in one |
| `SlotRuns.HeldSlotsAreUntouched` | tests/test_concurrent.c:1188-1211 | What a thread holds contains what it wrote, although slots are cleared after the claim and outside any lock |
| `SlotRuns.AllComeBackIff` | tests/test.c:2402-2518 | The whole pool is free again exactly when threads, list and limbo have let go of every slot |
| `SlotRuns.ExhaustedSawAll` | include/sl.h:4544-4561 | A claim that fails found every slot in use at some moment while it ran, if its search leaves no gap |
| `SlotRuns.ClaimEnds` | include/sl.h:4544-4561 | Whatever other threads do, a claim is over after as many probes as there are slots |
| `SlotRuns.SearchesBeginInTurn` | include/sl.h:4544-4561 | The claims of all threads begin their searches one place after the other, wrapping around with the cursor's word |

## Left out

- Private reads in `LockFree`: a thread's private reads of keys and neighbours are arguments of the step that uses them; what a compare-and-swap does not check itself is required of them only as far as keys go, which never change.
- Retirement.RetiredIsUnreachable: stated per level; the levels are those of the node array, not only those below the head's current height. Ways through several levels are the subject of `Descents`.
- Promotion.StepKeepsInv: one promotion and one remove of the same node. The other threads fill, mark, link where the keys fit, and swing to where a node was seen to point, at any level and in any order; they do not insert, fill or mark that node, so a demotion of it enters only as the swing it makes, and a second promotion of it to a level it was once linked at is out, as is another promotion that publishes out of order. The heights of other nodes are not kept: whether a predecessor is still tall enough is left open.
- Growth of the head by a rebalance: it stores the tail into the head's new levels without looking (include/sl.h:1594-1595), which would drop nodes linked above a head that was shrunk; this store is no step of `LockFree`, `Promotion` or `TakingBack`, where the head grows as in an insert.
- Strays.UnmarkedIsMemberIff: promotions are no steps of `LockFree`; a removed node whose new level a promotion has just published is a stray like one whose mark was erased.
- LockFree.StepKeepsInv: a helper's load of a marked node's pointer, which is frozen, and its swing are one step, also in phase 6b of an insert (include/sl.h:2131-2146). Giving up a level of the head needs no test of it, so a stale one is covered (include/sl.h:2517-2521).
- Revisits.NeverHeldAgain: the thread that starts later is a lookup; the walks of inserts and removes hold nodes in the same way, but are arguments of their steps.
- Epochs.StepKeepsInv: the spin lock around a bucket is taken as making the push one step, and the caller is required to pin before it reads or retires. A thread can come upon an unlinked node only if it was inside its section at the unlink; that a node stays unlinked is the subject of `Retirement` and `TakingBack`.
- SkipList.List.Insert: the tests for marks that only another thread could set (phases 5b and 6) are in `LockFree`, not here.
- SkipList.List.RebalancePath: the predecessors on the path are never lowered; how far each of them rises, as their hit counts ask, is left open.
- SkipList.List.Rebalance: the hit counts are not kept; which nodes want to move is an arbitrary argument, so the result holds for all counts. `SplayHeight` says what the matched node's wish is, given the counts.
- SkipList.List.LookupWithSplay: when a rebalance is due is an argument, not a counter.
- Snapshots.Store.Put: the list is taken by its contents, with one node to a key; snapshots of lists with duplicates are not modelled, nor is `release_snapshots`.
- SplayHeight.DivisionIsExact: the code divides in double precision; counts are taken below 2^53, where that is exact.
- SplayHeight.Settle: repeated visits are visits of one thread with the same counts, the same head height and the same peers; how the counters themselves change, and the head's growth for a node with more hits than the total, are left out.
- MunitRandom.AtMost: `max` of 0 divides by zero in the program and is excluded, as is `min == max` in `IntRange`.
- MunitParameters.Runner.RunWild: the array of parameters is taken as the caller prepares it (tests/munit.c:1640-1694); a test's outcome is a fixed function of the parameter values; values are named by position, and every list has a value, as the caller makes sure.
- RecordCodec.WriteEntry: a value of the node is a buffer with or without a terminating NUL; the failure to allocate the value on reading is not modelled.
- Archive.Serialize: write errors; keys are 32-bit ints in little-endian order, where the program copies the machine's bytes.
- SlotPool.Pool.Alloc: what the slot holds, which is the subject of `SlotRuns`.
- SlotRuns.StepKeepsInv: callers release only slots they hold; the list and reclamation are two sets between which slots move.
- Weak memory orders and fences: every atomic access is one sequentially consistent step.
- Running out of memory for nodes and buffers, apart from the pool's own ENOMEM.
- Random tower heights: the height is an arbitrary argument within the program's bound, so costs are not part of this model.
- DOT output, the integrity checker's diagnostics, macro generation, command lines, clocks, forking and benchmark timing.
