# Verification of the lifter's register promotion

This project models the part of the lifter that turns a lifted function, in which every CPU register lives in memory, into one
in which registers are values. It proves what each pass computes, that each terminates, and exactly when the result reads the
same values as the function it started from.

What happens to one function, and where it is modelled:

1. Instructions are lifted into blocks by a worklist (`TraceLift.dfy`), for functions found from the symbol table
   (`Tiling.dfy`).
2. Straight-line blocks are joined, and their access records with them (`Flow.dfy`, `Flatten.dfy`, `RegInfo.dfy`).
3. The blocks become bags. Loops are collapsed until the graph of bags has none (`Graphs.dfy`, `LoopSearch.dfy`,
   `Families.dfy`, `LoopState.dfy`, `BagGraph.dfy`); `LoopHeads.dfy` says which block names the bag of a loop.
4. Two passes over the bags collect what is touched before and read after each of them (`Dataflow.dfy`), and from that the
   registers that each bag derives, that is, for which its blocks get a phi (`PhiRegs.dfy`), and their classes (`PhiClasses.dfy`).
5. Phis are placed and filled on demand, relay blocks are put on edges that need a load of their own, and the reads and the
   final stores of each block are resolved (`Promoted.dfy`, `PromotedReads.dfy`, `PromotionSteps.dfy`, `RelaySteps.dfy`,
   `Promotion.dfy`).
6. `PhiSafety.dfy`, `ReadSafety.dfy` and `LoopNames.dfy` say when this is right, on the control-flow graph alone;
   `PromotedRuns.dfy` says it of whole runs. `VirtualRegsOpt.dfy` puts the passes together, and `StaleLoads.dfy` gives three
   functions that are promoted wrongly.

`TailJumps.dfy` closes the passed registers over tail jumps, `Pcode.dfy` cuts the p-code of an instruction into blocks, and
`RegisterIndex.dfy` is the table of registers of an architecture.

Code that changes objects is modelled by classes and methods (`BagGraph`, `Promotion`, `Flattener`, `BBRegInfoNode`,
`TraceLifter`, `ArchBase`, `VirtualRegsOpts`); the rest of each file is the value-level theory that the methods are proved
against. Blocks, functions and bags are named by numbers; a bag is named by the block it was made for.

## What was found

- Loop removal terminates on every graph, also when blocks cannot be reached, and its search path is never empty where the code
  checks for that. Of the blocks that the root reaches, it computes the strongly connected components. A component ends in the bag
  of a block at which it is entered (`NamedAtEntries`), so that a loop that is entered at one block only is named by the graph.
- What the promoted function has for a register at the end of a path of the original function is a simple function of that path
  (`Carried`): the last write since a block that does not derive the register, or else what is loaded there.
- The promoted function runs every path of the original one. Without calls, its reads are right along every path if and only if two
  conditions on the control-flow graph hold (`LoadsSafe`, `SelfLoopsSafe`), and a returned register comes back right if and only if a
  third does (`ReturnsSafe`). That all phis are right, too, also those that nothing reads, is a stronger property (`Right`), with
  its own condition (`EdgesSafe`, `SelfLoopsSafe`); it implies right reads and right returned registers, and holds without cycles.
  If reads and returned registers are right, the promoted function has exactly the runs of the lifted one: each read yields the
  same write (`SamePromotedRuns`).
- The conditions are stated on the graph, the summaries of the blocks and the root alone (`EntryNames`), if every loop that nothing
  leaves is entered at one block. For other functions it is enough that they hold whichever of its entries names a loop
  (`SafeHoweverNamed`).
- `is_loop` is not initialised when a bag is made; it is the parameter `garbage`. Of its values only those at blocks that are their
  own successors matter for right reads, and reads are right for all values if and only if they are for none set
  (`SafeForAllFlags`). For returned registers it does not matter.
- With cycles the conditions can fail, and only next to a loop (`EdgesSafeReads`, `StaleLoadIsAtLoop`, `LostIsBehindLoop`). Three
  lifted functions in which nothing can be joined, and whose promoted form has a wrong read:
  `WritingLoopFails` (a loop writes a register that it does not read: the block behind it reads the old value, and the caller gets
  every returned register back with the old value),
  `FinalLoopFails` (a loop that nothing leaves reads a register that was written before; the own loads of its other blocks never
  reach the maps of the blocks in front of it, because the merge of the own loads sits inside the loop over the children; for
  every register that is not passed to callees), and
  `SelfLoopFails` (an edge from a block to itself is dropped).
- The tail-jump closure ends if and only if no functions tail-jump in a circle.
- The blocks of a p-code list run as the list does if and only if blocks start exactly behind the branches. A conditional branch over
  one ordinary operation breaks this: a block that ends because another one starts leaves the instruction (`BranchOverOneFails`).
- A register name that is looked up before its register is added can never be added (`LookedUpFirst`); all other registers are found
  under their names (`RunsFind`).
- A second symbol at the program's entry point makes the tiling fail; at any other address it changes nothing.

## Model

| member | source | states |
|---|---|---|
| Registers.Widen | backend/remill/lib/BC/TraceLifter.cpp:1043-1064 | the merge loop over register maps keeps the wider class at each register, the first one on ties |
| Registers.JoinsWidened | backend/remill/lib/BC/TraceLifter.cpp:1043-1064 | merging joins of two sets of blocks gives a join of their union |
| Registers.JoinsUnique | backend/remill/lib/BC/TraceLifter.cpp:1043-1064 | a join has exactly the registers of its blocks and at each the largest size, whatever the order of the merges |
| Registers.LanesFill | backend/remill/lib/BC/InstructionLifter.cpp:379-406 | the size of a class is that of its lanes together, and each general class is twice as large as the one below it |
| Graphs.MergedConnected | backend/remill/lib/BC/TraceLifter.cpp:1139-1149 | merging two strongly connected classes that reach each other gives a strongly connected class |
| LoopSearch.TopoSeparates | backend/remill/lib/BC/TraceLifter.cpp:1120-1122 | two different finished classes never reach each other |
| LoopSearch.TopoComponents | backend/remill/lib/BC/TraceLifter.cpp:1079-1195 | if every class is connected, a finished class is exactly a strongly connected component |
| LoopSearch.TopoReached | backend/remill/lib/BC/TraceLifter.cpp:1164-1182 | with the class of the root every class that the root reaches is finished |
| LoopSearch.PendingExpand | backend/remill/lib/BC/TraceLifter.cpp:1164-1182 | when the unfinished children of a bag are pushed, finishing them still finishes everything that the bag reaches, although the bag is not pushed again |
| LoopSearch.PendingMerge | backend/remill/lib/BC/TraceLifter.cpp:1124-1160 | the same holds in the merged graph after two bags were merged |
| LoopSearch.PathLoop | backend/remill/lib/BC/TraceLifter.cpp:1124-1137 | the end of a path that runs through a bag back to it lies in the same component; such a path is not empty when it is popped |
| LoopSearch.ExpandEnergy | backend/remill/lib/BC/TraceLifter.cpp:1164-1182 | pushing children lowers the termination measure |
| LoopSearch.RetryEnergy | backend/remill/lib/BC/TraceLifter.cpp:1158-1162 | searching a bag again without a merge lowers the termination measure |
| Families.ForestMerged | backend/remill/lib/BC/TraceLifter.cpp:1035-1041 | redirecting a merged bag keeps the chains of redirections finite and ending in live bags |
| Families.FamilyMerged | backend/remill/lib/BC/TraceLifter.cpp:1066-1077 | after a merge of families, the children and parents of live bags, resolved, are exactly the edges of the merged quotient |
| Families.OthersSettled | backend/remill/lib/BC/TraceLifter.cpp:1195-1215 | replacing families by their resolved members without the bag itself leaves parent and child sets that mirror each other, with no self-edge |
| LoopState.AbsorbedConsistent | backend/remill/lib/BC/TraceLifter.cpp:1139-1149 | absorbing a bag keeps the own maps the joins of the members, the block lists a partition, and the bag count the number of live bags |
| LoopState.LoopFound | backend/remill/lib/BC/TraceLifter.cpp:1124-1137 | when the search meets a visited bag, its path is not empty, every bag on the path from there on lies on a loop with it, and either the end of the path is another bag or the bag has been merged before |
| LoopState.SearchedIntro | backend/remill/lib/BC/TraceLifter.cpp:1186-1215 | when the search is done, in any graph, the bags that the root reaches are the strongly connected components and lie on no loop |
| LoopHeads.EntryStays | backend/remill/lib/BC/TraceLifter.cpp:1124-1149 | when a loop is collapsed, every component keeps a bag of a block at which it is entered |
| LoopHeads.CleanChild | backend/remill/lib/BC/TraceLifter.cpp:1164-1177 | what holds along the path of an entry that no merge has touched holds along the paths of its children: different bags, each following the other, and up to every bag of a component the bag of a block at which it is entered |
| LoopHeads.LowDoomed | backend/remill/lib/BC/TraceLifter.cpp:1102-1108 | an entry further down whose path was merged finds its bag finished when its turn comes |
| LoopHeads.ListedStays | backend/remill/lib/BC/TraceLifter.cpp:1124-1149 | a finished bag is never merged, so that searching it again changes nothing |
| LoopHeads.HeadedCollapse | backend/remill/lib/BC/TraceLifter.cpp:1124-1162 | all this is kept when a loop is collapsed |
| LoopHeads.HeadedNamed | backend/remill/lib/BC/TraceLifter.cpp:1079-1195 | when the search is done, each bag that the root reaches is that of a block of its component at which the component is entered: the root, or a block that follows one outside |
| BagGraphs.BagGraph.GetTrueBag | backend/remill/lib/BC/TraceLifter.cpp:1035-1041 | terminates at the live bag |
| BagGraphs.BagGraph.MergeOwnRegs | backend/remill/lib/BC/TraceLifter.cpp:1043-1064 | the own maps are widened by those of the moved bag |
| BagGraphs.BagGraph.MergeFamilyBags | backend/remill/lib/BC/TraceLifter.cpp:1066-1077 | the families of the merged bag move to the target, on both sides of every edge |
| BagGraphs.BagGraph.Absorb | backend/remill/lib/BC/TraceLifter.cpp:1139-1149 | one bag is merged: register maps, block lists, families on both sides, the redirection and the count; nothing else changes |
| BagGraphs.BagGraph.Collapse | backend/remill/lib/BC/TraceLifter.cpp:1124-1156 | pops the path up to a bag that resolves to the target and merges exactly the bags behind it; the path is never exhausted, all conservation properties are kept, and if nothing is merged the bags are as before and the end of the path was the target |
| BagGraphs.BagGraph.PushChildren | backend/remill/lib/BC/TraceLifter.cpp:1164-1177 | pushes an entry for each unfinished bag that an edge leads to, with the path and the visited bags extended |
| BagGraphs.BagGraph.UpdateBags | backend/remill/lib/BC/TraceLifter.cpp:1186-1215 | every block ends in its live bag, and the families of live bags are the edges between different bags |
| BagGraphs.BagGraph.RemoveLoop | backend/remill/lib/BC/TraceLifter.cpp:1079-1215 | terminates on every graph; of the blocks that the root reaches, two end in one bag if and only if each reaches the other, and their bags lie on no loop; families mirror each other; each of these bags is named by a block at which its component is entered; the own maps, block lists, loop flags and the bag count are those of the merged bags |
| Dataflow.BagsReachAsBlocks | backend/remill/lib/BC/TraceLifter.cpp:1066-1077 | between live bags, reachability along children is reachability of blocks, and mutual reachability is equality |
| Dataflow.BeforeParents | backend/remill/lib/BC/TraceLifter.cpp:1308-1356 | what lies before a bag is what lies in its parents and before them |
| Dataflow.QueuedDone | backend/remill/lib/BC/TraceLifter.cpp:1354-1367 | when the queue is empty every bag is finished |
| Dataflow.SoFarDone | backend/remill/lib/BC/TraceLifter.cpp:1390-1420 | what a bag collects from its finished children is what is read after it, its own loads included exactly if it has a child or they were there from the start |
| Dataflow.StackedDone | backend/remill/lib/BC/TraceLifter.cpp:1379-1435 | when the stack is empty every bag is finished |
| BagGraphs.BagGraph.GetPrecedingVirtualRegsBags | backend/remill/lib/BC/TraceLifter.cpp:1285-1371 | terminates, and the preceding maps of every bag have the registers of all blocks strictly before it, each with the largest class |
| BagGraphs.BagGraph.GetSucceedingVirtualRegsBags | backend/remill/lib/BC/TraceLifter.cpp:1373-1437 | terminates, and the succeeding map of every bag has the registers of the loads at or after it that reach it, each with the largest class |
| PhiRegs.CollectDrvd | backend/remill/lib/BC/TraceLifter.cpp:1465-1510 | the loops that fill the map of derived registers compute the stated map |
| PhiRegs.DrvdMembers | backend/remill/lib/BC/TraceLifter.cpp:1465-1510 | which registers are derived, and that none of the classes they come from is wider than theirs |
| PhiRegs.DrvdIsNeedsPhi | backend/remill/lib/BC/TraceLifter.cpp:1439-1514 | a bag derives exactly the registers its blocks need a phi for, stated by reachability between blocks |
| PhiClasses.DrvdIsWidest | backend/remill/lib/BC/TraceLifter.cpp:1465-1510 | the class of a derived register is the widest of those accesses of blocks that are a reason to derive it |
| BagGraphs.BagGraph.constructor | backend/remill/lib/BC/TraceLifter.cpp:1758-1779 | one bag per block with an edge for each pair of different neighbours; the succeeding map starts as the own loads |
| BagGraphs.BagGraph.GetPhiRegsBags | backend/remill/lib/BC/TraceLifter.cpp:1439-1514 | from blocks and predecessors to components and, for each block, exactly the registers it needs a phi for, each with the widest class that is a reason for it |
| PhiSafety.PhiCoverage | backend/remill/lib/BC/TraceLifter.cpp:1439-1514 | in every graph, a block that reads first a register which a different block that reaches it writes, derives that register |
| PhiSafety.PhiBetween | backend/remill/lib/BC/TraceLifter.cpp:1488-1510 | so does a block between the write and a read that the backward pass has seen |
| PhiSafety.OnlyFlagged | backend/remill/lib/BC/TraceLifter.cpp:1471-1479 | a block that gets a phi only because its uninitialised loop flag is set reads the register, and no other block that reaches it writes it |
| PhiSafety.EdgeUnflagged | backend/remill/lib/BC/TraceLifter.cpp:1471-1479 | where a written register is loaded on an edge does not depend on the flags |
| PhiSafety.SafeIffGraph | backend/remill/lib/BC/TraceLifter.cpp:2701-2806 | loads are right on all paths, also for phis that nothing reads, if and only if no edge and no self-loop of the graph loads what a reaching block wrote |
| PhiSafety.KeptIffGraph | backend/remill/lib/BC/TraceLifter.cpp:2358-2388 | a returned register comes back right if and only if, from a block that has no phi for it although it has been written, the function cannot return without writing it again; the loop flags do not matter |
| PhiSafety.SafeReturns | backend/remill/lib/BC/TraceLifter.cpp:2358-2388 | if loads are right on all paths, every returned register comes back right |
| PhiSafety.LostIsBehindLoop | backend/remill/lib/BC/TraceLifter.cpp:1465-1479 | a returned register is lost only behind a loop that writes it and does not read it |
| PhiSafety.StaleLoadIsAtLoop | backend/remill/lib/BC/TraceLifter.cpp:1471-1510 | an edge that loads a written register lies behind a loop that writes the register without reading it, or in front of a loop that nothing leaves |
| PhiSafety.NoLoopsSafe | backend/remill/lib/BC/TraceLifter.cpp:1439-1514 | without loops all loads are right |
| ReadSafety.FedIffGraph | backend/remill/lib/BC/TraceLifter.cpp:2701-2806 | reads are right on all paths if and only if, from a block that needs no phi for a register although it has been written, no walk leads to a read of it without a write, and self-loops that read and write a register need a phi or have their flag set |
| ReadSafety.SafeForAllFlags | backend/remill/lib/BC/TraceLifter.cpp:1471-1479 | this holds for all values of the loop flags if and only if it holds when none is set |
| ReadSafety.EdgesSafeReads | backend/remill/lib/BC/TraceLifter.cpp:2701-2806 | a wrong read lies behind an edge on which a written register is loaded |
| LoopNames.SafeByName | backend/remill/lib/BC/TraceLifter.cpp:1079-1195 | if every loop that nothing leaves is entered at one block, the conditions can be evaluated with the names that the graph gives to the loops, before the search |
| LoopNames.SafeAsNamed | backend/remill/lib/BC/TraceLifter.cpp:1079-1195 | if the conditions hold whichever entry names a loop and no flag is set, they hold for the names that the search comes to and for all flags |
| StaleLoads.WritingLoopFails | backend/remill/lib/BC/TraceLifter.cpp:1465-1479 | a function in which the stores of a loop do not make its register derived: however it is optimised, the read behind the loop is wrong, and so is the register that the caller gets back |
| StaleLoads.FinalLoopFails | backend/remill/lib/BC/TraceLifter.cpp:1393-1413 | a function in which the loads of a loop that nothing leaves never reach the blocks before it: the edge into the loop loads a stale value, and the read in the loop is wrong |
| StaleLoads.SelfLoopFails | backend/remill/lib/BC/TraceLifter.cpp:1768-1778 | a function in which the dropped self-edge leaves a register without a phi, so that its reads are right if and only if the uninitialised loop flag of the block is set |
| Promoted.ProjPath | backend/remill/lib/BC/TraceLifter.cpp:2721-2734 | a path of the function with relays stands for a path of the original function |
| Promoted.LiftPath | backend/remill/lib/BC/TraceLifter.cpp:2721-2734 | every path of the original function is what some path with relays stands for |
| Promoted.EvalPhi | backend/remill/lib/BC/TraceLifter.cpp:2665-2697 | without calls, a phi that was filled from all predecessors holds what the promoted function has at the end of the path before it |
| Promoted.EvalEnd | backend/remill/lib/BC/TraceLifter.cpp:2607-2809 | so does every value that a block may give to a phi: a value of its own, a phi or a load |
| Promoted.CarriedRight | backend/remill/lib/BC/TraceLifter.cpp:1936-2412 | where no register is loaded that was written, this is the last write on the path |
| Promoted.CacheSays | backend/remill/lib/BC/TraceLifter.cpp:2025-2075 | without calls, the cached value of a register is its last write in the block, else its phi, else its first load |
| Promoted.CallTakes | backend/remill/lib/BC/TraceLifter.cpp:2072-2219 | a call takes the last write of a register before it, if and only if the register is numbered up to 8 or 32 and the callee is a lifted function, or up to 5 or 8 and it is the system |
| Promoted.CallTakesPhi | backend/remill/lib/BC/TraceLifter.cpp:2072-2219 | the same for the phi of a register that the block has not touched |
| Promoted.ReadBehindCall | backend/remill/lib/BC/TraceLifter.cpp:2103-2290 | behind a call a register with a known value is read from the load that the call makes, if it is numbered 0, 1 or 32 and the callee is a lifted function, or 0 and it is the system, and else as before |
| Promoted.RightIffSafe | backend/remill/lib/BC/TraceLifter.cpp:1936-2412 | a complete promoted function without calls has the values of the original one in every read and every phi along every path if and only if the entry derives nothing and no register is loaded where a path has written it |
| Promoted.RightKeeps | backend/remill/lib/BC/TraceLifter.cpp:2721-2734 | then every path of the original function is run by the promoted one with the same reads |
| Promoted.StateIsCarried | backend/remill/lib/BC/TraceLifter.cpp:2358-2388 | without calls, what is in the register memory after a return is what the promoted function has there, stored or not |
| Promoted.ReturnsIffKept | backend/remill/lib/BC/TraceLifter.cpp:2358-2388 | without calls, a returned register comes back with its last write on every path if and only if no path has written it where the value that is returned was loaded |
| Promoted.WrittenIsStored | backend/remill/lib/BC/TraceLifter.cpp:2358-2388 | X0, X1 or the stack pointer, written by a block that returns, is stored with its value at the end of the block |
| Promoted.KeepsIffReturns | backend/remill/lib/BC/TraceLifter.cpp:2358-2388 | this is the same along the paths of the promoted function and along those of the original one |
| PromotedReads.ReadIsCarried | backend/remill/lib/BC/TraceLifter.cpp:2025-2075 | what a read yields in the promoted function, as a function of the path of the original one |
| PromotedReads.CarriedIffFed | backend/remill/lib/BC/TraceLifter.cpp:1936-2412 | these are the values that the original function reads if and only if no path has written a register where it is loaded for a read: at the start of a walk through blocks that derive it to the read, or in the block of the read |
| PromotedReads.ReadsIffFed | backend/remill/lib/BC/TraceLifter.cpp:1936-2412 | the reads of a complete promoted function without calls are right under exactly this condition, along its own paths and along those of the original function |
| PromotedRuns.YieldsRight | backend/remill/lib/BC/TraceLifter.cpp:1936-2412 | if reads are right, each read on a path yields the same write as in the instruction sequence behind the path |
| PromotedRuns.PromotedSameRuns | backend/remill/lib/BC/TraceLifter.cpp:1677-1790 | with right reads and returned registers, the promoted function has exactly the runs of the function that was flattened, with the same writes read and returned |
| PromotionSteps.PhiEndStands | backend/remill/lib/BC/TraceLifter.cpp:2103-2174 | a block that derives a register and does not write it passes on its phi, or the load behind its call, which takes the place of the phi in other blocks |
| PromotionSteps.WithPhiSound | backend/remill/lib/BC/TraceLifter.cpp:2665-2674 | placing a phi keeps every value usable where it was |
| PromotionSteps.WithIncomingSound | backend/remill/lib/BC/TraceLifter.cpp:2675-2697 | so does giving a phi a value from a predecessor |
| PromotionSteps.WithLoadSound | backend/remill/lib/BC/TraceLifter.cpp:2791-2806 | so does a load at the end of a block |
| PromotionSteps.WithOwnSound | backend/remill/lib/BC/TraceLifter.cpp:2400 | so do the values noted at the end of a block |
| RelaySteps.WithRelaySound | backend/remill/lib/BC/TraceLifter.cpp:2721-2783 | so does a relay, with the phis of the target rerouted through it and the missing registers loaded in it |
| RelaySteps.RelayPlaced | backend/remill/lib/BC/TraceLifter.cpp:2703-2720 | a relay is put only on an edge behind which a register is derived that another successor does not derive |
| RelaySteps.RelayRelayed | backend/remill/lib/BC/TraceLifter.cpp:2722-2734 | a relay keeps the edges those of the original function, and predecessors and successors in step |
| RelaySteps.RelayFull | backend/remill/lib/BC/TraceLifter.cpp:2744-2766 | rerouting keeps every filled phi filled |
| RelaySteps.RelayMeasure | backend/remill/lib/BC/TraceLifter.cpp:2721-2734 | a relay uses up one edge, which bounds the recursion |
| Promotions.Promotion.MakeRelay | backend/remill/lib/BC/TraceLifter.cpp:2721-2789 | the loops over successors, phis and needed registers make exactly that change, and the target is queued |
| Promotions.Promotion.GetDrvdValue | backend/remill/lib/BC/TraceLifter.cpp:2607-2809 | terminates on every graph; the value may stand for the register at the end of the predecessor it names; phis and predecessors change nowhere that had a value, except that a relay may take the predecessor's place at the asking block; a load goes into the block itself only if all its successors derive the register, and into a relay only if another successor does not |
| Promotions.Promotion.FillPhi | backend/remill/lib/BC/TraceLifter.cpp:2675-2697 | terminates and leaves the phi with a value for exactly its predecessors, also when relays replace predecessors on the way; every other filled phi stays filled |
| Promotions.Promotion.PlacePhis | backend/remill/lib/BC/TraceLifter.cpp:1962-2023 | afterwards every derived register of the block has a filled phi |
| Promotions.Promotion.ResolveReads | backend/remill/lib/BC/TraceLifter.cpp:2025-2294 | each read becomes the cached value, that is, the last value stored before it in the block, else the value loaded behind a call, else the phi, else stays a load; each call stores exactly the registers that it takes and of which a value is cached |
| Promotions.Promotion.StoreForCall | backend/remill/lib/BC/TraceLifter.cpp:2072-2101 | stores before a call the registers with a value that are numbered up to 8 or 32, or up to 5 or 8 before a system call, every lookup succeeding |
| Promotions.Promotion.ReloadAfterCall | backend/remill/lib/BC/TraceLifter.cpp:2104-2174 | loads the registers numbered 0, 1 and 32, or 0 behind a system call, again, and adds none to the cache |
| Promotions.PassedFound | backend/remill/lib/BC/TraceLifter.cpp:2072-2222 | in every graph, a passed register written before a block is in the cache at each of its instructions, so the lookups at calls, system calls and returns never miss |
| Promotions.Promotion.StoreReturned | backend/remill/lib/BC/TraceLifter.cpp:2358-2388 | stores exactly X0, X1 and the stack pointer, as far as they have a value, and those of X0 to X8 and the stack pointer that were written before, each lookup succeeding, with the values at the end of the block, loads behind calls included |
| Promotions.NotedStep | backend/remill/lib/BC/TraceLifter.cpp:2785-2789 | after a block is promoted, the targets of all relays and of all edges from finished blocks are finished or queued, although relays are skipped |
| Promotions.Promotion.OptimizeVirtualRegsUsage | backend/remill/lib/BC/TraceLifter.cpp:1936-2412 | terminates with every reachable block promoted and, if there are no calls, with its reads, its phis and its returned registers right exactly under the conditions of the three theorems |
| RegInfos.BBRegInfoNode.JoinRegInfoNode | backend/remill/lib/BC/InstructionLifter.cpp:423-456 | the loops compute the stated join |
| RegInfos.JoinedAssociative | backend/remill/lib/BC/InstructionLifter.cpp:423-443 | the order in which neighbours are joined does not matter if stored registers have values |
| RegInfos.JoinedNotAssociative | backend/remill/lib/BC/InstructionLifter.cpp:434-443 | without such values it does |
| RegInfos.FoldConcat | backend/remill/lib/BC/InstructionLifter.cpp:423-443 | joining the records of two instruction lists gives the record of their concatenation |
| RegInfos.FoldSays | backend/remill/lib/BC/InstructionLifter.cpp:423-443 | the record of a list holds the class of the first read that no write precedes, the class of the last write, and the last of the widest values since the last write |
| Flows.JoinRecords | backend/remill/lib/BC/InstructionLifter.cpp:423-443 | the joined record says of the joined instructions what they read first, write and touch |
| Flows.JoinKept | backend/remill/lib/BC/TraceLifter.cpp:1719-1745 | joining two blocks keeps predecessors true and records right |
| Flattening.JoinStays | backend/remill/lib/BC/TraceLifter.cpp:1700-1745 | no block that is queued or was visited is ever erased |
| Flattening.FoldedSumsUp | backend/remill/lib/BC/TraceLifter.cpp:1719-1745 | the record of a joined block sums up those of the blocks it was made from: first exposed reads, last writes and last widest values |
| Flattening.ExpandPath | backend/remill/lib/BC/TraceLifter.cpp:1719-1745 | a path of the flattened function runs through the same instructions as a path of the original one |
| Flattening.FoldPath | backend/remill/lib/BC/TraceLifter.cpp:1719-1745 | every path of the original function is, up to its last chain of blocks, one of the flattened function |
| Flattening.ChainedSameRuns | backend/remill/lib/BC/TraceLifter.cpp:1704-1753 | both functions have the same instruction sequences from entry to return |
| Flattening.AgainFewer | backend/remill/lib/BC/TraceLifter.cpp:1698-1706 | popping a block that was visited before lowers the measure although unvisited ones are pushed |
| Flattening.Flattener.Flatten | backend/remill/lib/BC/TraceLifter.cpp:1685-1753 | terminates; same runs, true predecessors, records that sum up those of the joined blocks, and no block but the entry is followed by one that could be joined to it |
| VirtualRegsOpts.FlattenedNoCycles | backend/remill/lib/BC/TraceLifter.cpp:1719-1745 | joining blocks makes no cycles |
| VirtualRegsOpts.OptimizedMeans | backend/remill/lib/BC/TraceLifter.cpp:1755-1786 | without calls, the reads and the returned registers of a promoted function are right exactly under the graph conditions, seen from its own paths and from those of the original function; with the names from the graph if these are determined; and always without loops |
| VirtualRegsOpts.AllReturnsStored | backend/remill/lib/BC/TraceLifter.cpp:2358-2388 | this holds at every returning block of an optimised function, with or without calls |
| VirtualRegsOpts.OptimizeFunction | backend/remill/lib/BC/TraceLifter.cpp:1755-1786 | analysis and promotion together give the promoted form of the function, with the derived registers of the analysis, for which this holds |
| VirtualRegsOpts.OptimizeLifted | backend/remill/lib/BC/TraceLifter.cpp:1677-1790 | the same from the lifted function on, which is flattened first, and left as it is if nothing can be joined; if reads and returned registers are right, the promoted function has exactly the runs of the lifted one with the same values |
| TailJumps.VirtualRegsOpts.CalPassedCallerRegForBJump | backend/remill/lib/BC/TraceLifter.cpp:1597-1635 | without circles terminates; every function is passed exactly the registers of the functions it reaches by tail jumps, with the class it had or else that of the first callee |
| TailJumps.TurnFalls | backend/remill/lib/BC/TraceLifter.cpp:1603-1634 | each turn finishes a function, lowers the rank of the topmost unfinished one, or pops a finished one |
| TailJumps.RankExists | backend/remill/lib/BC/TraceLifter.cpp:1609-1629 | without circles the functions can be numbered so that every tail jump leads to a smaller number |
| TailJumps.CycleNeverEnds | backend/remill/lib/BC/TraceLifter.cpp:1609-1629 | a function that jumps in a circle stays on the stack for ever |
| TailJumps.EndsIffNoCircles | backend/remill/lib/BC/TraceLifter.cpp:1597-1635 | the loop ends if and only if no functions jump in a circle |
| PcodeCfgs.GetBlockStarts | backend/remill/lib/BC/PcodeCFG.cpp:21-29 | the starts are the first operation and all relative targets |
| PcodeCfgs.StartsAreTargets | backend/remill/lib/BC/PcodeCFG.cpp:21-75 | besides the first operation, blocks start exactly where a branch passes control, taken or not |
| PcodeCfgs.ShiftedNext | backend/remill/lib/BC/PcodeCFG.cpp:80-87 | operations in front shift every target: a relative branch leads as far on as before |
| PcodeCfgs.Build | backend/remill/lib/BC/PcodeCFG.cpp:124-147 | one block per start, up to the next start, with the exit of its last operation and its start as base index |
| PcodeCfgs.BlocksConcat | backend/remill/lib/BC/PcodeCFG.cpp:140-146 | the blocks in key order hold each operation once |
| PcodeCfgs.ExitsAreKeys | backend/remill/lib/BC/PcodeCFG.cpp:40-75 | an exit within the instruction leads to a block |
| PcodeCfgs.SameStepsIff | backend/remill/lib/BC/PcodeCFG.cpp:77-119 | blocks pass control on as the operations do if and only if blocks start exactly behind the branches |
| PcodeCfgs.SameRuns | backend/remill/lib/BC/PcodeCFG.cpp:77-147 | then running the blocks executes the same operations for all outcomes of the conditional branches |
| PcodeCfgs.SameRunsIff | backend/remill/lib/BC/PcodeCFG.cpp:77-147 | for all outcomes the blocks run as the operations do if and only if blocks start exactly behind the branches |
| PcodeCfgs.BranchOverOneFails | backend/remill/lib/BC/PcodeCFG.cpp:98-119 | a conditional branch over one ordinary operation: if it is not taken, the blocks never come to the last operation |
| RegisterIndexes.ArchBase.AddRegister | backend/remill/lib/Arch/Arch.cpp:746-800 | adds a register if and only if its name was not entered before, fails exactly if it shares a byte with a register of another outermost register, keeps the index right and all names that were entered, and enters no name but the new one and that of the parent |
| RegisterIndexes.ArchBase.RegisterAtStateOffset | backend/remill/lib/Arch/Arch.cpp:310-318 | the last added register that covers the byte |
| RegisterIndexes.ArchBase.RegisterByName | backend/remill/lib/Arch/Arch.cpp:327-336 | an unknown name is entered without a register |
| RegisterIndexes.ArchBase.EnclosingRegister | backend/remill/lib/Arch/Arch.cpp:474-480 | the chain of parents ends at the outermost register |
| RegisterIndexes.NestedStep | backend/remill/lib/Arch/Arch.cpp:783-797 | a check against the last register at each byte is a check against all of them |
| RegisterIndexes.EnteredIsIndexed | backend/remill/lib/Arch/Arch.cpp:776-797 | overwriting the bytes of the new register keeps each byte at its last register |
| RegisterIndexes.RunsFind | backend/remill/lib/Arch/Arch.cpp:746-800 | on every run of lookups and additions that do not fail, and of which none names a register as its own parent, each register is found under its name at its own place in the table, and stays there |
| RegisterIndexes.LookedUpFirst | backend/remill/lib/Arch/Arch.cpp:327-336 | a name that was looked up before a register was added under it never gets one |
| Tilings.SetELFData | lifter/TraceManager.cpp:82-135 | every symbol gets the code up to the next symbol or the end of its section; fails exactly on a symbol in no section and on two symbols at the entry point |
| Tilings.TiledOnce | lifter/TraceManager.cpp:54-66 | each address of a section with symbols lies in exactly one function, that of the greatest symbol not above it, and memory holds its byte |
| TraceLifts.TraceLifter.NoteFunction | backend/remill/lib/BC/TraceLifter.cpp:514-632 | notes exactly the functions that are called and those that are jumped to outside of this one |
| TraceLifts.TraceLifter.Connect | backend/remill/lib/BC/TraceLifter.cpp:497-797 | the block leads exactly where the machine goes from its instruction, ends as the instruction does, and queues those addresses |
| TraceLifts.TraceLifter.Lift | backend/remill/lib/BC/TraceLifter.cpp:396-797 | terminates; a block is lifted for exactly the addresses that control comes to without entering another function, and exactly the functions called and jumped to from there are found |
| TraceLifts.SameRuns | backend/remill/lib/BC/TraceLifter.cpp:396-797 | the machine and the lifted blocks have the same runs |

## Left out

- Bags as objects: a bag is a number, and each of its fields is a map that the methods of `BagGraph` reassign. Aliasing of bag
  pointers is then equality of numbers. The deletion of merged bags (TraceLifter.cpp:1216-1220) is not modelled.
- Basic blocks, functions and registers as LLVM objects: blocks are numbers with a list of reads and writes and a list of
  successors. Values are named by where they come from (a phi, the end of a block, an added load), not by their instruction; a
  stored value that is a constant is not modelled.
- Widths of accesses in the promotion theorem: every register has one width, so casts and the choice of the class of a load
  (TraceLifter.cpp:2704-2719) do not appear. Sizes are modelled in the analysis, where they are joined.
- Calls: the pass is modelled on functions with calls, but what it means for the values is proved for functions without. What a
  callee leaves in the registers that are loaded again behind a call (TraceLifter.cpp:2103-2290) rests on calling conventions. The
  registers of a system call are those of AArch64. Behind a call, the code replaces the uses of the earlier value in other blocks
  (TraceLifter.cpp:2115-2167); here the load is passed on from the start.
- Promotions.Promotion.GetDrvdValue: a block with a call that is its own successor passes the load behind the call on to its own phi;
  the code leaves the value from before the call there, because a phi comes before the load (TraceLifter.cpp:2120-2126).
- The recomputation of passed and returned registers after the analysis (TraceLifter.cpp:1516-1558) and the patches for two C library
  functions.
- Functions with indirect branches (TraceLifter.cpp:799-941): they are not optimised. `IndirectJump` ends a block in `TraceLift.dfy`, and the
  lifting of all their instructions is not modelled.
- BagGraphs.BagGraph.Collapse: leaves out the set of bags merged in this round, because a merged bag already resolves to the
  target, so that it ends the round before the set is looked at.
- LoopNames.SafeByName: which of its entries names a loop that nothing leaves and that is entered at several blocks depends on the
  addresses of the bags; for such functions the exact conditions are stated with the names that the search came to (`bagOf`), which
  are entries, and `SafeAsNamed` goes one way.
- Dataflow.SoFarDone: the loads of a bag without children are not merged into its succeeding map, as in the code; this is why
  `Contributes` asks for an exit.
- PhiRegs.CollectDrvd: iterates over maps in any order, where the code has the order of its hash maps.
- BagGraphs.BagGraph.GetPhiRegsBags: asks that every block can be reached from the entry, as the checks behind both passes do.
- VirtualRegsOpts.OptimizeLifted: asks for the same, for at most two successors per block, and for an entry block that accesses no
  register, leads to one block and is entered from none, which the code checks or builds.
- Promotions.Promotion.OptimizeVirtualRegsUsage: takes the derived registers and the passed registers as given;
  `OptimizeFunction` gets them from the bags.
- RegInfos.BBRegInfoNode.JoinRegInfoNode: leaves out the tables of semantic calls, which are united and have no common keys.
- PcodeCfgs.Build: asks that relative targets lie within the instruction; for others the code reads past its operations.
- Tilings.SetELFData: asks for sorted symbols, disjoint sections and a symbol at the start of each section that has any; without
  the last the code runs past its list. Names, the procedure linkage table and the wrapper of `main` are left out.
- TraceLifts.TraceLifter.Lift: one function with a fixed decoder; delay slots and the conditional calls and returns, which do not
  exist on AArch64, are left out, and so is the debug build's continuation after an instruction without semantics.
- RegisterIndexes.ArchBase.AddRegister: a failed check leaves the object as it is at that moment; the code ends the program.
- The records of single instructions, which `LiftIntoBlock` fills (InstructionLifter.cpp:599-770), are taken as given by
  `OptimizeLifted`; what joining makes of them is proved.
- Operand lowering, the `_IO_file_xsputn` patch, debug output and statistics.
