# Kernel models

Dafny models of eight parts of the kernel sources under `ROBOT OS/ROBT KERNLE`, with proofs of what
they are relied on for. Each critical section, or each operation under its mutex, is one step.
`dafny verify dfyconfig.toml` checks everything.

| file | models |
|---|---|
| `Hierarchy.dfy` | the cgroup tree and its stackless traversals |
| `ChildIteration.dfy` | iterating over children while they come and go |
| `SchedDomains.dfy` | partitioning cpusets into scheduler domains |
| `Cpusets.dfy` | the cpuset tree, its checks, hotplug, and which cpusets the domains serve |
| `Freezers.dfy` | the cgroup freezer |
| `FreezerWalks.dfy` | its writes step by step, overlapping with each other and with creation |
| `CssSets.dfy` | css_sets as values: links, counts and every step that changes them |
| `CssIndex.dfy` | the same in place: hash table, per-cgroup lists, finding, attaching, mounting |
| `ScanTasks.dfy` | scanning the tasks of a css through a bounded heap |
| `TreeRefs.dfy` | the chain of chunk references of an audit context |
| `Async.dfy` | asynchronous calls, cookies and waiting |
| `Creds.dfy` | ownership of credentials |
| `Acct.dfy` | the number formats of process accounting |
| `AuditStrings.dfy` | printing untrusted strings |
| `ExecveArgs.dfy` | logging execve arguments |
| `Lists.dfy`, `Options.dfy`, `SetFacts.dfy` | lists without repetition, optional values, sizes of finite sets |

The state machines (`Cpusets`, `Freezers`, `FreezerWalks`, `CssSets`, `Async`, `Creds`) share one shape: an invariant
`Inv`, a lemma per step that it is kept, and `Run`, the state after any sequence of steps, from which the
`Reachable...` lemmas read off what holds in every reachable state. The classes update the same state in
place, and each method is tied to the step it performs.

What comes from outside is a parameter: whether an allocation succeeds, what a controller or a security
module answers, which children of a cgroup are dead, which tasks a scan finds, which chunks lie on a path, whether user memory can be read.
`css_set_hash` is any function of the css pointers. The heap library is not part of these sources; its
insertion is specified as keeping the earliest entries and returning the one dropped, with the latest
entry first.

Where code and comments disagree the model follows the code:

- `async_synchronize_cookie_domain` promises that all calls submitted before the cookie are done. A call
  that its submitter runs is in no list and is not waited for (`Async.WaitMissesInline`); the promise
  holds exactly while that branch is not taken (`Async.WaitIsRight`, `Async.GuardDecides`).
- With a NULL domain `lowest_in_progress` takes the head of the global list for a `domain_list` node. On
  the 64-bit layout without lock debugging the word it reads is `data` (`Async.NullWaitIsSound`,
  `Async.NullWaitIsExact`).
- `freezer_css_online` says that a cgroup can never escape its ancestors' freezing state. `online_css` stores the
  pointer to the new css only afterwards, and until then a walk takes the cgroup for the end of the list
  (`FreezerWalks.LateIsExact`, `FreezerWalks.ChildEscapes`).
- `freezer_attach` says that no parent with children that are not FROZEN can be left FROZEN. Overlapping
  writes can leave one (`FreezerWalks.StaleIsExact`, `FreezerWalks.WritersRace`).
- `encode_comp_t` takes an unsigned long but its exponent has 3 bits (`Acct.CompIsRight`).
- `audit_log_n_hex` computes in `int`; its room is right while that does not overflow
  (`AuditStrings.HexRoom`, `AuditStrings.HexOverflows`).

## Model

| member | source | states |
|---|---|---|
| Hierarchy.CreateValid | ROBOT OS/ROBT KERNLE/cgroup.c:4155-4258 | adding a child keeps the tree well formed: serial numbers grow, children lists ascend, parents are older than children |
| Hierarchy.NextChild | ROBOT OS/ROBT KERNLE/cgroup.c:2932-2975 | returns the first listed child with a serial number above the position, whether or not the position is still listed, and nothing exactly when there is none |
| Hierarchy.NextDescendantPre | ROBOT OS/ROBT KERNLE/cgroup.c:2992-3018 | one stackless step returns the node that follows the position in the recursive pre-order listing, and nothing exactly at its end |
| Hierarchy.NextDescendantPost | ROBOT OS/ROBT KERNLE/cgroup.c:3081-3104 | one stackless step returns the node that follows the position in the recursive post-order listing |
| Hierarchy.RightmostDescendant | ROBOT OS/ROBT KERNLE/cgroup.c:3034-3050 | the result is the last node of the subtree listing, so what follows it is what follows the whole subtree |
| Hierarchy.LeftmostDescendant | ROBOT OS/ROBT KERNLE/cgroup.c:3053-3064 | the result is the first node of the post-order listing of the subtree |
| Hierarchy.PreSkip | ROBOT OS/ROBT KERNLE/cgroup.c:3019-3050 | continuing from the rightmost descendant skips exactly the subtree of the position |
| Hierarchy.WalkPre | ROBOT OS/ROBT KERNLE/cgroup.c:2992-3018 | iterating from NULL terminates and visits the recursive pre-order listing, each descendant once and nothing else |
| Hierarchy.WalkPost | ROBOT OS/ROBT KERNLE/cgroup.c:3081-3104 | iterating from NULL terminates and visits the recursive post-order listing, each descendant once and nothing else |
| Hierarchy.PreContents | ROBOT OS/ROBT KERNLE/cgroup.c:2977-3018 | the recursive pre-order listing holds exactly the descendants |
| Hierarchy.PreParentFirst | ROBOT OS/ROBT KERNLE/cgroup.c:2977-3018 | in it every node comes after its parent |
| Hierarchy.PostIsPermutation | ROBOT OS/ROBT KERNLE/cgroup.c:3067-3104 | the post-order listing is a permutation of the pre-order listing |
| Hierarchy.PostChildrenFirst | ROBOT OS/ROBT KERNLE/cgroup.c:3067-3104 | in it every node comes before its parent |
| ChildIteration.StepKeepsInv | ROBOT OS/ROBT KERNLE/cgroup.c:2932-2975 | advancing, creating and unlinking children in any order keep the visited serial numbers increasing and every listed child visited or still ahead |
| ChildIteration.AdvanceCursor | ROBOT OS/ROBT KERNLE/cgroup.c:2932-2975 | css_next_child performs the advancing step of the interleaved iteration, also when the position was removed |
| ChildIteration.IterationIsComplete | ROBOT OS/ROBT KERNLE/cgroup.c:2932-2975 | over any interleaving, a finished iteration has visited every child still listed exactly once |
| ChildIteration.ListedThroughout | ROBOT OS/ROBT KERNLE/cgroup.c:4231-4234 | a child listed at the end that existed at the start was listed at every moment between |
| SchedDomains.Renumber | ROBOT OS/ROBT KERNLE/cpuset.c:655-668 | gives one partition the number of another and leaves the rest of the array alone |
| SchedDomains.MergeFirst | ROBOT OS/ROBT KERNLE/cpuset.c:650-668 | merges the first overlapping pair with different numbers, in the order of the two loops, and nothing else, lowering the number of distinct numbers by one, or shows that none is left |
| SchedDomains.NumberPartitions | ROBOT OS/ROBT KERNLE/cpuset.c:643-668 | the restart loop terminates with ndoms equal to the number of distinct pn values, equal numbers meaning connected cpusets and overlapping cpusets sharing a number |
| SchedDomains.Populate | ROBOT OS/ROBT KERNLE/cpuset.c:683-726 | fills exactly ndoms slots, one union per number, so the check nslot against ndoms and the warning never fire |
| SchedDomains.Partition | ROBOT OS/ROBT KERNLE/cpuset.c:643-726 | the domains are the unions over the connected components of the overlap graph |
| SchedDomains.DomainsDisjoint | ROBOT OS/ROBT KERNLE/cpuset.c:525-576 | the domains are pairwise disjoint |
| SchedDomains.DomainContains | ROBOT OS/ROBT KERNLE/cpuset.c:525-576 | each collected cpuset is inside its domain |
| SchedDomains.DomainsAreFinest | ROBOT OS/ROBT KERNLE/cpuset.c:525-576 | every domain is contained in some member of any disjoint family that covers all collected cpusets |
| SchedDomains.DomainsAreMost | ROBOT OS/ROBT KERNLE/cpuset.c:525-576 | no such family whose members each hold a cpuset with CPUs has more members |
| Cpusets.CpusetTree.ValidateChange | ROBOT OS/ROBT KERNLE/cpuset.c:423-483 | returns the error a change deserves: a child outgrown, a parent exceeded, an overlapping sibling of which one is exclusive, or tasks left without CPUs or memory |
| Cpusets.VerdictIsExact | ROBOT OS/ROBT KERNLE/cpuset.c:403-483 | a change is refused for the tree's sake exactly if installing it would break a rule, and for its tasks' sake exactly if it would not and would leave them without CPUs or memory |
| Cpusets.VerdictKinds | ROBOT OS/ROBT KERNLE/cpuset.c:432-448 | which refusal it is: a child outgrown first, then the parent exceeded |
| Cpusets.RulesMean | ROBOT OS/ROBT KERNLE/cpuset.c:356-371 | the rules in terms of masks and exclusive flags of parent, child and siblings |
| Cpusets.AcceptedChangeKeepsInv | ROBOT OS/ROBT KERNLE/cpuset.c:364-483 | a change that is accepted keeps subset, flag inheritance and sibling exclusivity in the whole tree |
| Cpusets.ExclusiveIsGlobal | ROBOT OS/ROBT KERNLE/cpuset.c:449-463 | an exclusive cpuset is disjoint from every online cpuset that is neither its ancestor nor its descendant, though only siblings are checked |
| Cpusets.CpusetTree.WriteMaskFile | ROBOT OS/ROBT KERNLE/cpuset.c:914-967 | an accepted write replaces that one mask of that one cpuset and nothing else, any other changes nothing; it is accepted exactly if the cpuset is online and not the top, the list is present, memory is there and the change passes or is none; the invariant is kept |
| Cpusets.CpusetTree.WriteFlagFile | ROBOT OS/ROBT KERNLE/cpuset.c:1303-1348 | an accepted write sets or clears that flag of that cpuset and nothing else, any other changes nothing, and the invariant is kept |
| Cpusets.CpusetTree.CssOnline | ROBOT OS/ROBT KERNLE/cpuset.c:1940-1992 | a new cpuset changes no other; it balances load, takes over the spread flags, and copies its parent's masks if told to and no sibling is exclusive, else it is empty; the invariant is kept |
| Cpusets.CpusetTree.CssOffline | ROBOT OS/ROBT KERNLE/cpuset.c:2000-2013 | a cpuset going offline keeps its masks and loses its load balancing unless memory is short, no other changes, and the invariant of those online is kept |
| Cpusets.CpusetTree.HotplugWork | ROBOT OS/ROBT KERNLE/cpuset.c:2188-2243 | the top has the new masks, every other online cpuset its old masks cut down to them, and flags, offline cpusets and the tree are as before; the invariant is kept |
| Cpusets.CpusetTree.TrimDescendants | ROBOT OS/ROBT KERNLE/cpuset.c:2104-2170 | the walk cuts the masks of each online cpuset but the top down to the given ones, and changes nothing else |
| Cpusets.ApplyKeepsInv | ROBOT OS/ROBT KERNLE/cpuset.c:364-483 | every operation keeps the invariant |
| Cpusets.ReachableCpusets | ROBOT OS/ROBT KERNLE/cpuset.c:364-483 | after any run a descendant is a subset of its ancestors in CPUs, memory and exclusive flags, and exclusive cpusets are disjoint from all unrelated ones |
| Cpusets.CpusetTree.CollectBalanced | ROBOT OS/ROBT KERNLE/cpuset.c:613-641 | the walk collects, each once, exactly the load-balanced cpusets with no proper ancestor below the top that is load-balanced or without CPUs, fewer than the array holds |
| Cpusets.CpusetTree.GenerateSchedDomains | ROBOT OS/ROBT KERNLE/cpuset.c:580-740 | every online load-balanced cpuset with CPUs, collected or skipped, is inside exactly one domain; domains are disjoint and within the top CPUs; one default domain is returned exactly when allocation fails |
| Cpusets.DomainsServe | ROBOT OS/ROBT KERNLE/cpuset.c:619-726 | the child-subset invariant, the walk and the partition together put every serving cpuset into exactly one domain |
| Cpusets.InSomeDomain | ROBOT OS/ROBT KERNLE/cpuset.c:631-636 | a load-balanced cpuset is inside a domain exactly if it has CPUs or the tree has a cpuset that the walk collects |
| Cpusets.SkippedIsUncovered | ROBOT OS/ROBT KERNLE/cpuset.c:619-641 | a run after which a load-balanced cpuset below an empty one is in no domain, whatever the machine has |
| Cpusets.BalanceSwitches | ROBOT OS/ROBT KERNLE/cpuset.c:1303-1348 | with memory at hand, switching load balancing is never refused and changes that flag only |
| Freezers.ParentBitIsAncestry | ROBOT OS/ROBT KERNLE/cgroup_freezer.c:25-31 | an online freezer has FREEZING_PARENT exactly when a proper ancestor has FREEZING_SELF |
| Freezers.FrozenIsRecursive | ROBOT OS/ROBT KERNLE/cgroup_freezer.c:126-129 | below a FROZEN freezer every online freezer is FROZEN |
| Freezers.ApplyKeepsInv | ROBOT OS/ROBT KERNLE/cgroup_freezer.c:110-422 | every step keeps the invariant, a write or a creation being one step, with the upward clearing of attach interleaved with them and with reads |
| Freezers.ReachableFreezers | ROBOT OS/ROBT KERNLE/cgroup_freezer.c:100-422 | in every reachable state FROZEN implies FREEZING, the parent bit means an ancestor freezes, the count is the number of freezing online freezers, and FROZEN holds for whole subtrees |
| Freezers.ReadIsComplete | ROBOT OS/ROBT KERNLE/cgroup_freezer.c:257-302 | when all freezers below are idle a read refreshes a freezing freezer to FROZEN |
| Freezers.FreezerTree.CssOnline | ROBOT OS/ROBT KERNLE/cgroup_freezer.c:110-136 | a freezer comes online freezing and frozen exactly if its parent is freezing, is counted then, and changes no other |
| Freezers.FreezerTree.CssOffline | ROBOT OS/ROBT KERNLE/cgroup_freezer.c:145-157 | a freezer going offline has an empty state, leaves the count, and changes no other |
| Freezers.FreezerTree.Attach | ROBOT OS/ROBT KERNLE/cgroup_freezer.c:173-217 | attaching to a freezing freezer clears FROZEN on it and on all its ancestors and nowhere else, although the loop stops at the first ancestor that is not freezing |
| Freezers.AttachSettles | ROBOT OS/ROBT KERNLE/cgroup_freezer.c:192-216 | when the upward loop stops no ancestor above is frozen |
| Freezers.FreezerTree.ApplyState | ROBOT OS/ROBT KERNLE/cgroup_freezer.c:352-378 | an online freezer gets the one bit set or cleared, keeps the other, and keeps FROZEN while freezing; the count stays in step |
| Freezers.FreezerTree.WriteState | ROBOT OS/ROBT KERNLE/cgroup_freezer.c:388-422 | FREEZING_SELF changes at the written freezer only, FREEZING_PARENT below it only, to whether an ancestor has FREEZING_SELF; FROZEN stays exactly where still freezing; offline freezers and those outside are as before |
| Freezers.FreezerTree.UpdateOne | ROBOT OS/ROBT KERNLE/cgroup_freezer.c:257-302 | FROZEN is set exactly if the freezer is freezing, its tasks are frozen and all online children are frozen |
| Freezers.FreezerTree.Read | ROBOT OS/ROBT KERNLE/cgroup_freezer.c:304-319 | the post-order walk refreshes the subtree from the leaves up: an online freezer is FROZEN exactly if it is freezing and every online one at or below it was FROZEN or has its tasks frozen; it reports the state |
| FreezerWalks.StepKeepsInv | ROBOT OS/ROBT KERNLE/cgroup_freezer.c:110-422 | writes that lock one freezer at a time, overlapping with each other, with creation, removal, attach and reads, keep: an online freezer follows its parent, or a walk has yet to reach it, or it came into view too late for one |
| FreezerWalks.ApplyCurrent | ROBOT OS/ROBT KERNLE/cgroup_freezer.c:401-417 | what a writer saw of the parent, whose lock it does not take, is still so when it applies it, or another writer is still to come |
| FreezerWalks.NewAhead | ROBOT OS/ROBT KERNLE/cgroup_freezer.c:396-418 | a walk meets a new child exactly if it has not left the subtree of its parent |
| FreezerWalks.LateIsExact | ROBOT OS/ROBT KERNLE/cgroup.c:4056-4071 | a new freezer comes into view neither following its parent nor ahead of a walk exactly if the parent changed after the freezer took after it and every walk is done with the parent's subtree before the pointer to it is stored |
| FreezerWalks.NoneEscapes | ROBOT OS/ROBT KERNLE/cgroup_freezer.c:115-119 | an online freezer that is not freezing below one told to freeze is, or is below, one that a walk has yet to reach or that came into view too late |
| FreezerWalks.ReachableWalks | ROBOT OS/ROBT KERNLE/cgroup_freezer.c:110-422 | after any run FROZEN implies FREEZING, the count is the number of freezing online freezers, and where no walk is due and none was missed FREEZING_PARENT means that an ancestor has FREEZING_SELF |
| FreezerWalks.StaleIsExact | ROBOT OS/ROBT KERNLE/cgroup_freezer.c:206-211 | a step leaves a FROZEN freezer with an online child that is not exactly if it takes the last freezing bit off the child, or brings a child into view that is not FROZEN, while the parent is FROZEN |
| FreezerWalks.SerialWalks | ROBOT OS/ROBT KERNLE/cgroup_freezer.c:110-422 | when writes and creations exclude each other none escapes, and FROZEN covers whole subtrees at every moment outside an attach |
| FreezerWalks.ChildEscapes | ROBOT OS/ROBT KERNLE/cgroup.c:4056-4071 | from every reachable state with nothing under way, a thawed cgroup without children can be told to freeze and found FROZEN while its first child is created, and the child runs |
| FreezerWalks.WritersRace | ROBOT OS/ROBT KERNLE/cgroup_freezer.c:388-422 | from every reachable state with a FROZEN child of a thawed cgroup, two writes and a read can leave the parent FROZEN and the child FREEZING |
| FreezerWalks.SecondCgroup | ROBOT OS/ROBT KERNLE/cgroup_freezer.c:388-422 | there are such states |
| CssSets.TemplateIsDetermined | ROBOT OS/ROBT KERNLE/cgroup.c:534-573 | the template of css pointers is exactly what the old choice of cgroups with the new one substituted determines |
| CssSets.InstallKeepsInv | ROBOT OS/ROBT KERNLE/cgroup.c:642-704 | adding a css_set for a choice that no css_set has keeps all invariants |
| CssSets.MountKeepsInv | ROBOT OS/ROBT KERNLE/cgroup.c:1627-1635 | mounting a hierarchy links its top cgroup into every css_set and keeps order, uniqueness and counts |
| CssSets.UnmountKeepsInv | ROBOT OS/ROBT KERNLE/cgroup.c:1711-1723 | unmounting removes one link from every css_set and keeps them distinct |
| CssSets.LoadKeepsInv | ROBOT OS/ROBT KERNLE/cgroup.c:4647-4660 | loading a subsystem adds its root css to every css_set |
| CssSets.UnloadKeepsInv | ROBOT OS/ROBT KERNLE/cgroup.c:4719-4729 | unloading removes it again |
| CssSets.MigrateKeepsInv | ROBOT OS/ROBT KERNLE/cgroup.c:1922-1953 | moving a task moves one count |
| CssSets.ForkKeepsInv | ROBOT OS/ROBT KERNLE/cgroup.c:4989-4996 | a forked task is on its parent's css_set, which counts one more, and nothing else changes |
| CssSets.StartExitKeepsInv | ROBOT OS/ROBT KERNLE/cgroup.c:2006-2008 | a task that starts to exit keeps its css_set and its count, and is moved no more |
| CssSets.ExitKeepsInv | ROBOT OS/ROBT KERNLE/cgroup.c:5088-5128 | a task past PF_EXITING that reaches cgroup_exit gives its count back and falls to the initial css_set uncounted |
| CssSets.ApplyKeepsInv | ROBOT OS/ROBT KERNLE/cgroup.c:397-704 | every step keeps the invariant |
| CssSets.ReachableCssSets | ROBOT OS/ROBT KERNLE/cgroup.c:330-704 | in every reachable state each css_set has one link per hierarchy in the common order, no two have the same links, each pointer is that of the linked cgroup, and the count is that of its tasks and held references |
| CssIndex.CompareLinks | ROBOT OS/ROBT KERNLE/cgroup.c:490-526 | comparing link by link answers whether the css_set is the old one with the new cgroup substituted; list lengths and hierarchy orders always agree |
| CssIndex.CgroupCore.constructor | ROBOT OS/ROBT KERNLE/cgroup.c:4751-4820 | after boot the one css_set is indexed and the invariant holds |
| CssIndex.CgroupCore.FindExisting | ROBOT OS/ROBT KERNLE/cgroup.c:534-573 | a match is found exactly if one exists, in the bucket of the template |
| CssIndex.CgroupCore.LinkAll | ROBOT OS/ROBT KERNLE/cgroup.c:617-632 | uses up exactly the allocated links and puts the new css_set on the list of each of its cgroups |
| CssIndex.CgroupCore.FindCssSet | ROBOT OS/ROBT KERNLE/cgroup.c:642-704 | the result is the old choice with one hierarchy replaced, an existing css_set if there is one and a new one otherwise, held once more, with no other changed; it fails exactly for want of memory when none exists, and then changes nothing |
| CssIndex.CgroupCore.PutCssSet | ROBOT OS/ROBT KERNLE/cgroup.c:397-436 | the last reference takes the css_set off the table and off every cgroup |
| CssIndex.CgroupCore.TaskCgroupFromRoot | ROBOT OS/ROBT KERNLE/cgroup.c:710-741 | finds the one link of the task for a hierarchy |
| CssIndex.CgroupCore.Select | ROBOT OS/ROBT KERNLE/cgroup.c:2003-2037 | selects exactly the threads that are not exiting and not in the cgroup already |
| CssIndex.CgroupCore.FindAll | ROBOT OS/ROBT KERNLE/cgroup.c:2053-2067 | a css_set for every selected thread, up to the first that wants a choice no css_set stands for, and none before it, when there is no memory |
| CssIndex.CgroupCore.Attach | ROBOT OS/ROBT KERNLE/cgroup.c:1964-2111 | all or nothing: on success every selected thread is in its old choice with the target substituted and nothing else moved, otherwise every mapping and every count is as before; it is refused exactly if a thread is to move and a controller refuses, and fails exactly if a thread wants a new choice without memory; the controllers are asked in order up to the first refusal, and those that agreed are told, in order, that it is done or called off |
| CssIndex.ToldOnce | ROBOT OS/ROBT KERNLE/cgroup.c:2038-2107 | a controller is told the outcome exactly once if it was asked and agreed, and otherwise never |
| CssIndex.CgroupCore.AskAll | ROBOT OS/ROBT KERNLE/cgroup.c:2038-2050 | stops at the first controller that refuses |
| CssIndex.RollbackIsExact | ROBOT OS/ROBT KERNLE/cgroup.c:2090-2107 | giving the references back restores the css_sets and counts exactly |
| CssIndex.UsedExactly | ROBOT OS/ROBT KERNLE/cgroup.c:397-436 | with no reference held a css_set exists exactly while tasks use it and its count is their number |
| CssIndex.CgroupCore.MountHierarchy | ROBOT OS/ROBT KERNLE/cgroup.c:1627-1635 | the new hierarchy is last, owns the subsystems with their root css, and every css_set is linked to its top, each once, with the links counted beforehand |
| CssIndex.CgroupCore.KillHierarchy | ROBOT OS/ROBT KERNLE/cgroup.c:1711-1723 | the hierarchy and its link leave every list from their place, and its subsystems go back to the dummy hierarchy |
| CssIndex.CgroupCore.LoadSubsys | ROBOT OS/ROBT KERNLE/cgroup.c:4647-4660 | every css_set has the new pointer and is in the bucket of its pointers |
| CssIndex.CgroupCore.UnloadSubsys | ROBOT OS/ROBT KERNLE/cgroup.c:4719-4729 | every css_set has lost the pointer and is in the bucket of those left |
| CssIndex.CgroupCore.ForkTask | ROBOT OS/ROBT KERNLE/cgroup.c:4989-4996 | the child is on its parent's css_set, which counts one more; every other task and css_set is as before |
| CssIndex.CgroupCore.StartExitTask | ROBOT OS/ROBT KERNLE/cgroup.c:2006-2008 | the task is exiting and on the css_set it was on |
| CssIndex.CgroupCore.ExitTask | ROBOT OS/ROBT KERNLE/cgroup.c:5088-5128 | the task falls to the initial css_set and the old one counts one less or is released |
| CssIndex.CgroupCore.MakeCgroup | ROBOT OS/ROBT KERNLE/cgroup.c:4155-4258 | a new cgroup has no css_set linked |
| CssIndex.CgroupCore.RemoveCgroup | ROBOT OS/ROBT KERNLE/cgroup.c:4395-4431 | a cgroup is removed exactly if no css_set is linked to it and every child is dead |
| ScanTasks.PtrHeap.Insert | ROBOT OS/ROBT KERNLE/cgroup.c:3303-3328 | the heap takes the task, refuses it, or drops its latest task, so that it keeps the earliest |
| ScanTasks.Gather | ROBOT OS/ROBT KERNLE/cgroup.c:3295-3329 | after one scan the heap holds the earliest qualifying tasks later than the mark, as many as fit, with one reference held on each and on nothing else |
| ScanTasks.Process | ROBOT OS/ROBT KERNLE/cgroup.c:3331-3342 | every gathered task is processed once, its reference dropped, and the mark is the latest of them |
| ScanTasks.Scan | ROBOT OS/ROBT KERNLE/cgroup.c:3275-3372 | terminates for any finite set of tasks with all references dropped; each pass takes the next earliest tasks in (start time, pointer) order |
| ScanTasks.AfterMeans | ROBOT OS/ROBT KERNLE/cgroup.c:3213-3232 | the order is by start time in nanoseconds, and by pointer between equals |
| ScanTasks.InStartOrder | ROBOT OS/ROBT KERNLE/cgroup.c:3275-3372 | what an earlier pass processes did not start later than what a later pass does |
| ScanTasks.AtMostOnce | ROBOT OS/ROBT KERNLE/cgroup.c:3275-3372 | no task is processed twice, even if tasks come and go between passes |
| ScanTasks.EveryTaskProcessed | ROBOT OS/ROBT KERNLE/cgroup.c:3251-3273 | every qualifying task that is in the css in each pass is processed, and only qualifying tasks found there are |
| ScanTasks.FixedSet | ROBOT OS/ROBT KERNLE/cgroup.c:3251-3273 | for an unchanged task set exactly the qualifying tasks are processed |
| ScanTasks.PassCount | ROBOT OS/ROBT KERNLE/cgroup.c:3275-3372 | n qualifying tasks and a heap of k take n / k passes, rounded up, and one more |
| TreeRefs.AuditContext.PutTreeRef | ROBOT OS/ROBT KERNLE/auditsc.c:209-228 | appends the chunk to the contents; fails, changing nothing, exactly when every slot of the chain is taken |
| TreeRefs.AuditContext.GrowTreeRefs | ROBOT OS/ROBT KERNLE/auditsc.c:230-245 | adds an empty block and keeps the contents |
| TreeRefs.AuditContext.UnrollTreeRefs | ROBOT OS/ROBT KERNLE/auditsc.c:247-275 | restores exactly the contents of the snapshot and drops each later reference once, in order |
| TreeRefs.AuditContext.RunAndUnroll | ROBOT OS/ROBT KERNLE/auditsc.c:209-275 | any run of puts and grows after a snapshot records exactly the chunks that find a slot, and unrolling to the snapshot drops them, each once, and restores the contents |
| TreeRefs.AuditContext.MatchTreeRefs | ROBOT OS/ROBT KERNLE/auditsc.c:286-307 | answers whether any held reference matches and never reads an empty slot |
| TreeRefs.AuditContext.HandleOne | ROBOT OS/ROBT KERNLE/auditsc.c:1533-1561 | the chunk is recorded, after the chain is extended if it is full, unless memory has run out, and only then the context is auditable; references and contents agree |
| TreeRefs.AuditContext.HandlePath | ROBOT OS/ROBT KERNLE/auditsc.c:1563-1620 | terminates once renames cease. It records every tagged ancestor at the first try that fits the chain and meets no rename, or restores the snapshot and sets the context auditable at the first that does not fit when memory has run out; each try that does not fit extends the chain; no reference leaks |
| TreeRefs.AuditContext.WalkUp | ROBOT OS/ROBT KERNLE/auditsc.c:1577-1594 | records the chunks from the dentry up and stops short exactly when they do not fit |
| Async.ApplyKeepsInv | ROBOT OS/ROBT KERNLE/async.c:85-197 | every step keeps each pending list strictly increasing in cookie and equal to the unfinished calls of its domain |
| Async.WaitIsExact | ROBOT OS/ROBT KERNLE/async.c:85-104 | the wait on (cookie, domain) ends exactly when every call queued on the domain with a smaller cookie has returned |
| Async.WaitIsFinal | ROBOT OS/ROBT KERNLE/async.c:273-302 | once the wait for an issued cookie has ended no later step queues a call with a smaller cookie |
| Async.FullWait | ROBOT OS/ROBT KERNLE/async.c:260-271 | a full wait ends exactly when nothing is pending on the domain |
| Async.WaitMissesInline | ROBOT OS/ROBT KERNLE/async.c:156-170 | from every state, once a submitter runs call k itself the queued calls can all return, and then a wait for k + 1 ends although call k is not done |
| Async.UndoneUntilReturn | ROBOT OS/ROBT KERNLE/async.c:156-170 | call k stays undone until it returns to its submitter, whatever else happens |
| Async.GuardDecides | ROBOT OS/ROBT KERNLE/async.c:156-170 | with no synchronous call under way the wait for the call just submitted is right at every moment exactly if there was memory and not too much pending |
| Async.WaitIsRight | ROBOT OS/ROBT KERNLE/async.c:283-302 | in every run that never takes the synchronous branch for a domain, every wait on it ends exactly when all earlier calls are done |
| Async.InlineExample | ROBOT OS/ROBT KERNLE/async.c:156-170 | a run in which a wait ends while an earlier synchronous call is still running |
| Async.NullWaitIsSound | ROBOT OS/ROBT KERNLE/async.c:92-100 | waiting on all domains reads the data word instead of the cookie: it never ends early exactly if that word of the first call does not exceed its cookie |
| Async.NullWaitIsExact | ROBOT OS/ROBT KERNLE/async.c:92-100 | it ends exactly when it should, for every cookie, exactly if that word equals the cookie or nothing is pending |
| Async.NullWaitBlocks | ROBOT OS/ROBT KERNLE/async.c:92-100 | a run in which it does not end although nothing earlier is pending |
| Async.NullWaitExample | ROBOT OS/ROBT KERNLE/async.c:92-100 | a run in which the wait on all domains ends with an earlier call pending |
| Async.OldestNotBlocked | ROBOT OS/ROBT KERNLE/async.c:85-104 | the oldest unfinished call passes a wait for its own cookie on every domain |
| Async.CanDrain | ROBOT OS/ROBT KERNLE/async.c:109-146 | from every state all calls can return one by one, each able to pass a wait for its own cookie |
| Async.AsyncQueues.Schedule | ROBOT OS/ROBT KERNLE/async.c:148-197 | takes the next cookie; with memory and not too much pending the call is last on its domain's list, and on the global one if the domain is registered, otherwise it runs synchronously and no list changes |
| Async.AsyncQueues.RemoveEntry | ROBOT OS/ROBT KERNLE/async.c:109-146 | the call leaves both lists, wherever it is, and counts as finished; no other call moves |
| Async.AsyncQueues.WaitEnds | ROBOT OS/ROBT KERNLE/async.c:85-104 | the test of the wait |
| Creds.ReachableCreds | ROBOT OS/ROBT KERNLE/cred.c:126-555 | after any run usage is the task pointers and the callers' references, subscribers are the task pointers, no pointer dangles, and each user's process count is its counted tasks |
| Creds.LastPut | ROBOT OS/ROBT KERNLE/cred.c:126-142 | credentials are freed exactly by the last reference, when no task points at them |
| Creds.RefsDetermine | ROBOT OS/ROBT KERNLE/cred.c:126-167 | pointers, references and owners determine which credentials exist and all their counts |
| Creds.CommitEffect | ROBOT OS/ROBT KERNLE/cred.c:414-481 | both pointers become the new credentials, the caller's reference is gone, and the process is recharged |
| Creds.OverrideRevert | ROBOT OS/ROBT KERNLE/cred.c:512-555 | a paired override and revert leave everything as it was |
| Creds.PrepareAbort | ROBOT OS/ROBT KERNLE/cred.c:235-277 | preparing and aborting leave everything as it was |
| Creds.ShareUndone | ROBOT OS/ROBT KERNLE/cred.c:314-333 | a thread that shares credentials and fails later to fork leaves everything as it was |
| Creds.ForkUndone | ROBOT OS/ROBT KERNLE/cred.c:335-373 | so does a child with credentials of its own |
| Creds.CredTable.PrepareCreds | ROBOT OS/ROBT KERNLE/cred.c:235-277 | new credentials with one reference, of the user and with the keyring of the task's subjective ones, or nothing changed, exactly for want of memory or when refused |
| Creds.CredTable.CommitCreds | ROBOT OS/ROBT KERNLE/cred.c:414-481 | both pointers are the new credentials, the caller's reference is gone, one process moves from the old user to the new, and no credentials change owner |
| Creds.CredTable.AbortCreds | ROBOT OS/ROBT KERNLE/cred.c:491-502 | drops the one reference |
| Creds.CredTable.OverrideCreds | ROBOT OS/ROBT KERNLE/cred.c:512-531 | the subjective pointer is the override and the caller has the old credentials with the task's reference; nothing else changes |
| Creds.CredTable.RevertCreds | ROBOT OS/ROBT KERNLE/cred.c:541-555 | the subjective pointer is the old credentials, the caller's reference to them and the override's are gone |
| Creds.CredTable.CopyCreds | ROBOT OS/ROBT KERNLE/cred.c:314-373 | fails exactly under the stated conditions and then changes nothing; a shared child points at the parent's subjective credentials, which gain two references; any other child has its own, of the parent's subjective user or the one given; that user has one process more |
| Creds.CredTable.ExitCreds | ROBOT OS/ROBT KERNLE/cred.c:147-167 | the task and the references of its pointers are gone, and no other task or reference |
| Creds.CredTable.PutCred | ROBOT OS/ROBT KERNLE/cred.c:126-142 | the checks on freeing hold: what is freed is no task's |
| Creds.CredTable.ReleaseTask | ROBOT OS/ROBT KERNLE/exit.c:172-181 | the task leaves the count of the user of its objective credentials |
| Acct.EncodeComp | ROBOT OS/ROBT KERNLE/acct.c:352-377 | the loop computes exponent and half-up rounded mantissa, cut to 16 bits |
| Acct.CompRounds | ROBOT OS/ROBT KERNLE/acct.c:352-377 | before the cut the code stands for the value rounded half up to a unit of its mantissa |
| Acct.CompIsRight | ROBOT OS/ROBT KERNLE/acct.c:352-377 | the 16-bit code is right exactly below 8191.5 * 8^7, so for every 32-bit value |
| Acct.CompOrder | ROBOT OS/ROBT KERNLE/acct.c:352-377 | larger values have larger codes |
| Acct.CompExact | ROBOT OS/ROBT KERNLE/acct.c:352-377 | decoding gives the value back exactly for multiples of the unit, so for all values below 8192 |
| Acct.EncodeComp2 | ROBOT OS/ROBT KERNLE/acct.c:394-420 | the loop computes the limited code |
| Acct.Comp2IsRight | ROBOT OS/ROBT KERNLE/acct.c:394-420 | half-up rounding below 2^50 - 2^29, the largest code from there on, exact below 2^20 |
| Acct.Comp2Order | ROBOT OS/ROBT KERNLE/acct.c:394-420 | larger values have larger codes, none above the largest |
| Acct.LargestIsLargest | ROBOT OS/ROBT KERNLE/acct.c:394-420 | no code stands for more than the largest one |
| Acct.EncodeFloat | ROBOT OS/ROBT KERNLE/acct.c:427-439 | normalises the value and keeps 24 bits |
| Acct.FloatTruncates | ROBOT OS/ROBT KERNLE/acct.c:427-439 | truncation toward zero as in section 3.4 of IEEE 754-2008, at every exponent, with an error below one unit in the last place |
| Acct.FloatExact | ROBOT OS/ROBT KERNLE/acct.c:427-439 | values of up to 24 bits, zero included, are exact |
| Acct.FloatGreatest | ROBOT OS/ROBT KERNLE/acct.c:427-439 | no float with a 24-bit significand, of whatever exponent, lies between the encoding and the value |
| Acct.FloatOrder | ROBOT OS/ROBT KERNLE/acct.c:427-439 | larger values have larger encodings, from zero on |
| AuditStrings.TokenRoundTrip | ROBOT OS/ROBT KERNLE/audit.c:1527-1558 | one decoder recovers every byte string from its token |
| AuditStrings.TokenMeans | ROBOT OS/ROBT KERNLE/audit.c:1527-1558 | a string is quoted exactly if it has no quote, space, control or eight-bit byte, and is two upper-case digits a byte otherwise |
| AuditStrings.TokensDiffer | ROBOT OS/ROBT KERNLE/audit.c:1527-1558 | different strings have different tokens |
| AuditStrings.TokenIsClean | ROBOT OS/ROBT KERNLE/audit.c:1527-1558 | no token has a space, a control byte or an eight-bit byte |
| AuditStrings.TokenIsDelimited | ROBOT OS/ROBT KERNLE/audit.c:1527-1558 | a token followed by a space and anything else is read back as the string |
| AuditStrings.HexRoom | ROBOT OS/ROBT KERNLE/audit.c:1473-1481 | there is room for the digits and the terminator exactly while the 32-bit arithmetic does not overflow |
| AuditStrings.StringRoom | ROBOT OS/ROBT KERNLE/audit.c:1506-1512 | likewise for the quoted form |
| AuditStrings.HexAsks | ROBOT OS/ROBT KERNLE/audit.c:1473-1481 | without overflow the fewest whole units are asked for, and nothing if there is room |
| AuditStrings.HexOverflows | ROBOT OS/ROBT KERNLE/audit.c:1473-1481 | with 2^30 bytes to print nothing is asked for, whatever room there is |
| AuditStrings.HexRequestOverflows | ROBOT OS/ROBT KERNLE/audit.c:1473-1481 | just below that the request itself is negative |
| AuditStrings.StringOverflows | ROBOT OS/ROBT KERNLE/audit.c:1506-1512 | the quoted form of 2^31 bytes asks for nothing either |
| AuditStrings.ContainsControl | ROBOT OS/ROBT KERNLE/audit.c:1527-1535 | whether any byte is a quote, a space, a control or an eight-bit byte |
| AuditStrings.AuditBuffer.Expand | ROBOT OS/ROBT KERNLE/audit.c:1371-1385 | keeps the text and adds the room asked for, or fails |
| AuditStrings.AuditBuffer.LogHex | ROBOT OS/ROBT KERNLE/audit.c:1461-1488 | appends two digits a byte and a terminator inside the buffer, or nothing when it cannot grow; where the arithmetic overflows and the room is short the model stops before the first write outside |
| AuditStrings.AuditBuffer.LogString | ROBOT OS/ROBT KERNLE/audit.c:1494-1520 | appends the quoted string and a terminator inside the buffer, or nothing, with the same exception |
| AuditStrings.AuditBuffer.LogUntrusted | ROBOT OS/ROBT KERNLE/audit.c:1551-1558 | appends the token of the string, or nothing, exactly as the two forms do |
| ExecveArgs.ExpectedRecovers | ROBOT OS/ROBT KERNLE/auditsc.c:1004-1138 | the pieces of an argument decode and concatenate to it, and the announced length is their total encoded length |
| ExecveArgs.ExpectedMeans | ROBOT OS/ROBT KERNLE/auditsc.c:1069-1135 | an argument is cut into stretches of 7500 bytes, or 3750 in hexadecimal; if there are several they are numbered and the encoded length comes first |
| ExecveArgs.EveryArgumentRecovered | ROBOT OS/ROBT KERNLE/auditsc.c:1140-1172 | every argument is read back from a complete log and no piece counts for another |
| ExecveArgs.ExecveLog.Scan | ROBOT OS/ROBT KERNLE/auditsc.c:1035-1064 | the first walk reads up to the first chunk with a byte that needs hexadecimal, and finds one exactly if there is one; it fails exactly if such a read does |
| ExecveArgs.ExecveLog.LogPiece | ROBOT OS/ROBT KERNLE/auditsc.c:1072-1135 | a new record is started exactly if the piece does not fit, and the piece goes into the last one, its length announced before it is copied; it stops exactly if there is no such record, and kills exactly if the copy fails; the count sent exceeds 7500 by at most the label |
| ExecveArgs.ExecveLog.LogArgument | ROBOT OS/ROBT KERNLE/auditsc.c:1004-1138 | logs exactly the expected items, or a prefix of them; it succeeds exactly if the argument is short enough and read, and every piece fits or finds a new record and can be read again |
| ExecveArgs.ExecveLog.LogExecve | ROBOT OS/ROBT KERNLE/auditsc.c:1140-1172 | logs all arguments in order, exactly if each goes out after those before it, or a prefix |

## Left out

- Whether a css is visible to its own subsystem while being created or destroyed (the last step of
  css_next_child from cgroup to css), except in `FreezerWalks`; RCU, percpu reference counts and all
  memory-ordering effects.
- Offline cgroups stay in the tree of `Cpusets` and `Freezers`, marked offline; their later removal is
  modelled for the child lists in `ChildIteration` and for the links in `CssIndex` only.
- A hotplug counts as complete: all descendants are updated before the next operation, and cpusets that
  are being destroyed are treated as already offline.
- Effects of cpuset masks on tasks, memory policy and page migration; relax_domain_level and the other
  domain attributes; sched_relax and spread flags as anything but flags.
- Single tasks and their frozen state are a parameter of a read; update_if_frozen and one step of a
  traversal are taken at one moment.
- Remounting a hierarchy with other subsystems, release notification, cgroup files, pidlists, dentries.
- CssIndex.CgroupCore.Attach: what the callbacks of the controllers do is not modelled, only which are
  called, in which order and with which answers, because they are code of other subsystems.
- ScanTasks.Scan: the heap is the caller's; allocating a temporary one, which can only fail before the
  scan starts, is left out.
- Async: cookies do not wrap at 2^64, and entry_count is read in the same step that queues; the work queue runs calls in
  any order.
- Async.NullWaitIsSound: assumes the 64-bit field layout described above.
- Creds: keys, groups, user namespaces, capabilities, dumpability and notifications; a user is a number
  with a process count and is never freed.
- Creds.CredTable.ExitCreds: the two halves are performed together, which ends in the same state.
- AuditStrings.AuditBuffer.LogHex: where the arithmetic overflows and the room is short the source writes
  past the buffer, which the model does not follow; its result says so.
- ExecveArgs: records are lists of fields; their textual layout and the fixed fields around them are not
  modelled, and the length announced is not counted against the size of a record, as in the source.
- audit_tree.c, audit_watch.c and auditfilter.c: list surgery tied to file notification and path lookup.
- Netlink delivery, rate limiting and syscall filtering in audit.c and auditsc.c.
- fork.c, exit.c, cpu.c, futex_compat.c and the remaining small files, except for where process counts
  are lowered.
- The robot scripts and the utilities outside `ROBT KERNLE`.
