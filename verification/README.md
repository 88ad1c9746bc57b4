# Proofs about bkunix

bkunix is a PDP-11 Unix for the BK-0010 with the tools to build it on another
machine. This project models five parts of it in Dafny and proves what each
promises its users.

- **The file system tool `fsutil`.** A disk is a sequence of 512-byte blocks of
  bytes; the free list, the indirect blocks and the data of files share it, and
  everything the model knows it reads from those bytes. `Words` (bytes, words,
  blocks), `FreeBlocks` (the chained free list), `Inodes` (which blocks an inode
  owns, truncation), `Mapping`, `MapTheorem` and `DoubleTheorem` (mapping a logical
  block, for reading and for writing), `Files` and `CopyLoops` (files as byte sequences,
  copying in and out), `FreeLists` and `Format` (fresh and rebuilt free lists),
  `Runs` (any sequence of operations), `FsImpl` (the same operations in place, on
  a superblock, an inode and a disk), `FsckBlocks`, `FsckFree`, `FsckVerdict`,
  `FsckRepair`, `FsckMarks` and `FsckImpl` (the checker), `Skew` (the interleaved image).
- **Switch code.** `SwitchMachine` (the registers, condition codes, labels and
  tables that such code uses), `PccSwitch` and `C1Switch` (the two compilers).
- **Branch code.** `Conditions` (trees, their meaning, comparing longs by
  halves), `PccBranch` and `C1Branch`.
- **The object code improver `c2`.** `C2Run` (programs as lists of nodes and what
  running them means), `C2Moves`, `C2Blocks` and `C2Loops` (each rewrite
  preserves every run), `C2Refs` (reference counts), `C2Impl` (the improver on its list).
- **The assembler's choice of branch lengths**, `Relax`.
- **The linker.** `LdSymbols` (what loading a file does to the symbol table),
  `LdHash` (the hash table), `LdRun` (both passes over a list of files, and the
  layout between them) and `Ld` (the linker on its tables).

Where the source changes things step by step, a class or a method does the same
and is proved equal to a function on values (`FsImpl`, `FsckImpl`, `Skew.Image`,
`PccSwitch.CodeGen`, `C1Switch.Generator`, the two `Emitter`s, `C2Impl.Optimizer`,
`Relax.Assembler`, `Ld.Linker`); the theorems are about those functions.

A program for `c2` runs on a machine of which only the jumps are known: what has
been executed so far determines the condition codes, by any function whatever.
Two programs are equivalent when from each entry (the head, a named label, an
entry of a jump table) each does whatever the other does: the same instructions
in the same order, and the same end if there is one. Environments of the branch
code are functions of what has been evaluated in the same way.

## Findings

Properties that are false of the code, with the input that shows it and the
condition under which they hold:

- c1's hash switch divides case values as unsigned host integers. On a host with
  32-bit integers a negative case goes wrong unless the divisor divides 65535:
  `C1Switch.HashExact`, `C1Switch.HashWrongExample`.
- pcc's `cbgen` leaves a comparison of longs pending after testing an unsigned
  long for `>= 0` or `< 0`, and the next conditional jump for a test of words
  then tests that long: `PccBranch.StaleWrong`. The code compares only what it
  has just computed if and only if no pending comparison meets such a test
  (`PccBranch.Leaves` finds that out from the tree): `PccBranch.ComparesOwn`. Then
  it is right: `PccBranch.CBranchRight`.
- The assembler's first pass takes a `jbr` up to 376 bytes back to be short (the
  constant is decimal; branches reach 254), so a layout can come out smaller than
  the final one and a jump marked short can fail: `Relax.GapFails`. A jump to an
  even distance fails if and only if `setbr` takes it to be in range and its
  estimate, less what the program between shrinks without being reckoned with,
  is over 256: `Relax.JumpsLand`. Without a `jbr` 255 to 376 bytes back none does:
  `Relax.NoGapLands`. For `jcc` the comparison lacks a minus sign, so it is never
  short in the first pass.
- fsck's phase 4 does not take the blocks of a cleared inode off `used_blocks`, so
  the count test is passed although they are now neither busy nor free:
  `FsckRepair.LostExample`, and for every consistent volume and every choice of
  inodes `FsckRepair.ClearedPasses`. When the test is passed, busy and free blocks
  share out the data area if and only if clearing has freed no block:
  `FsckRepair.AcceptsIff`, and for every run of phases 1, 1b and 4 on any volume
  `FsckRepair.RunAccepts`. Clearing what the check marks leaves a volume in order
  but for that: `FsckMarks.MarkedRun`.
- The linker does not let a text symbol take the place of a common block, so of a
  name that one file asks for as common and a later one defines in its text the
  definition is refused: `LdRun.RefusedWrong`. A name that is defined once gets
  one address from both passes if and only if its definition was not refused:
  `LdRun.DefinitionPlaced`.
- The double-indirect arm of `map_block_write` enters a new second-level block at
  a doubled index in a cleared copy of the first-level block, so what it returns
  may not be found again: `DoubleTheorem.DoubleWrong`. It is found if and only if
  the second-level block existed or the index is 0 and the entry is not the very
  first (for that one, the old contents of a free block decide):
  `DoubleTheorem.DoubleAgrees`. The file theorems stay below that range.

## Model

| member | source | states |
|---|---|---|
| FreeBlocks.FreePushes | fsutil/block.c:13-33 | freeing a block pushes it on one unbounded stack, also when the 100 slots spill into the block, and writes to no other block |
| FreeBlocks.AllocPops | fsutil/block.c:82-106 | alloc fails exactly when the stack is empty and otherwise pops its top without writing |
| FreeBlocks.AllocAfterFree | fsutil/block.c:13-106 | alloc after free returns that block and restores the stack |
| FreeBlocks.ChainUnique | fsutil/block.c:13-106 | what is on disk determines the stack |
| Inodes.TruncatePushes | fsutil/inode.c:458-482 | truncation pushes exactly the blocks the inode owned, each once, in reverse order, and writes nowhere else, though chain data overwrites blocks just freed |
| Inodes.FreeTreePushes | fsutil/block.c:38-77 | freeing an indirect or double-indirect tree pushes its blocks in order |
| MapTheorem.MapWriteAgrees | fsutil/inode.c:590-683 | below the double-indirect limit map_block_write returns a block exactly when enough are free, takes exactly the blocks it needs, map_block then finds it, and every other logical block maps as before |
| MapTheorem.ConvertKeeps | fsutil/inode.c:600-616 | the change from small to large keeps all eight mappings |
| DoubleTheorem.DoubleAgrees | fsutil/inode.c:648-666 | in the double-indirect range map_block finds what map_block_write returned if and only if a condition on the state before the call holds |
| DoubleTheorem.DoubleWrong | fsutil/inode.c:648-666 | for block 2048 of a large file without double indirection it does not |
| Files.MapInjective | fsutil/inode.c:187-229 | two logical blocks of a file never map to one block |
| Files.WriteOneBlock | fsutil/inode.c:512-551 | a write inside one block succeeds exactly when its blocks are free, replaces exactly the bytes at its offset, grows size to the maximum, and leaves other blocks alone |
| Files.OneTurn | fsutil/inode.c:520-551 | a request inside one block is one turn of the loop |
| CopyLoops.AddFile | fsutil/fsutil.c:371-379 | copying in by chunks succeeds exactly when the blocks the length needs are free, and the file then holds the content |
| CopyLoops.ExtractHeld | fsutil/fsutil.c:184-192 | copying out yields the bytes the file holds |
| CopyLoops.CopyRoundTrip | fsutil/fsutil.c:184-192 | copying in and then out returns the bytes, for every length below the double-indirect limit |
| Runs.StepPartition | fsutil/inode.c:458-683 | every successful operation keeps the data area partitioned and the contents of files of other inodes |
| Runs.RunPartition | fsutil/inode.c:458-683 | every run of legal operations up to the first failure keeps the partition |
| FreeLists.DescendingOrder | fsutil/create.c:300-304 | the lists that are built pop in ascending order |
| FreeLists.DescendingExact | fsutil/check.c:770-792 | they hold every eligible block once |
| FreeLists.MakeListExact | fsutil/check.c:746-792 | a rebuilt list holds exactly the blocks that are not busy and writes to no other block |
| FreeLists.AllocateBlockSame | fsutil/create.c:214-232 | create's own allocator is alloc |
| Format.CreatePartition | fsutil/create.c:270-326 | a volume can be made exactly from six blocks up and starts out partitioned |
| Format.RunFromFresh | fsutil/create.c:270-326 | every run from a fresh volume keeps the partition |
| FsImpl.Fs.BlockFree | fsutil/block.c:13-33 | the copy of slots and the push in place are the function Free |
| FsImpl.Fs.BlockAlloc | fsutil/block.c:82-106 | the pop and the reload of the slots in place are the function Alloc |
| FsImpl.Fs.IndirectBlockFree | fsutil/block.c:38-58 | the loop over an indirect block is FreeTree of depth 1 |
| FsImpl.Fs.DoubleIndirectBlockFree | fsutil/block.c:60-80 | the loop over a double-indirect block is FreeTree of depth 2 |
| FsImpl.InodeRec.MapBlockRead | fsutil/inode.c:187-229 | map_block on the inode is the function MapBlock |
| FsImpl.InodeRec.MapBlockWrite | fsutil/inode.c:590-683 | the in-place operation, with the conversion loop, is the function MapWrite |
| FsImpl.InodeRec.Read | fsutil/inode.c:484-510 | the read loop is the function InodeRead |
| FsImpl.InodeRec.WriteBytes | fsutil/inode.c:512-551 | the write loop is the function InodeWrite |
| FsImpl.InodeRec.TruncateInode | fsutil/inode.c:458-482 | the loop over the addresses is the function Truncate |
| FsImpl.MakeFreeList | fsutil/check.c:770-792 | the loop down the volume is the function MakeList |
| FsImpl.AddFile | fsutil/fsutil.c:371-379 | the chunk loop is the function AddChunks |
| FsImpl.ExtractFile | fsutil/fsutil.c:184-192 | the chunk loop is the function Extract |
| FsckBlocks.Pass1Counts | fsutil/check.c:244-286 | pass1 adds one to busy bit plus duplicates of its block and of no other |
| FsckBlocks.Pass1bPermutes | fsutil/check.c:288-304 | pass1b only permutes the duplicate list |
| FsckBlocks.Pass4Counts | fsutil/check.c:580-600 | pass4 takes one reference away, from the list while it has one |
| FsckBlocks.Phase1CountsAll | fsutil/check.c:842-877 | while no scan stops early, busy bit plus duplicates is the number of references of the inodes that phase 1 leaves |
| FsckBlocks.Phase1bKeepsCounts | fsutil/check.c:288-304 | phase 1b keeps that |
| FsckBlocks.ClearAllCounts | fsutil/check.c:580-621 | after clearing any inodes the count is that of the surviving ones |
| FsckBlocks.BusyIffReferred | fsutil/check.c:580-621 | then a block is busy exactly when a surviving inode refers to it |
| FsckFree.CheckChainSound | fsutil/check.c:655-718 | on any disk, cyclic or not, a scan that ends without corruption has visited distinct free blocks of one chain and counted them |
| FsckFree.CheckChainComplete | fsutil/check.c:655-718 | and every such chain is scanned without corruption |
| FsckVerdict.PassesSound | fsutil/check.c:842-993 | when nothing is found at all, busy blocks and free blocks partition the data area |
| FsckVerdict.PassesComplete | fsutil/check.c:842-993 | in every consistent volume nothing is found |
| FsckVerdict.PartitionPasses | fsutil/check.c:842-993 | nor in one that the file system's operations leave |
| FsckVerdict.RebuiltIsAccepted | fsutil/check.c:770-792 | a list that make_free_list builds is accepted with the exact count |
| FsckRepair.Phase1Tallies | fsutil/check.c:244-286 | used_blocks is the number of busy blocks, also with bad and shared blocks and scans cut short |
| FsckRepair.AcceptsIff | fsutil/check.c:942-993 | whatever phase 1 found and phase 4 cleared, when the count test is passed, the busy blocks and the free blocks visited partition the data area if and only if clearing freed none |
| FsckRepair.ClearedPasses | fsutil/check.c:605-622 | a consistent volume passes the test whichever inodes are cleared |
| FsckRepair.LostExample | fsutil/check.c:605-622 | a volume that passes with a block that is neither busy nor free |
| FsckRepair.SalvagePasses | fsutil/check.c:1000-1003 | after clearing any inodes, the volume with the rebuilt list passes if and only if the inodes left hold no bad and no shared block |
| FsckRepair.CheckedIff | fsutil/check.c:942-1003 | the volume that the check leaves is consistent if and only if moreover the list was rebuilt or clearing freed nothing |
| FsckRepair.RunAccepts | fsutil/check.c:842-993 | the same for the tables of any run of phases 1, 1b and 4, on any volume, also when scans stop early |
| FsckRepair.RunIff | fsutil/check.c:842-1003 | for every such run in which no scan of phase 1 stops early, the volume that the check leaves is consistent if and only if the inodes left hold no bad and no shared block and the list was rebuilt or clearing freed nothing |
| FsckMarks.MarkedIff | fsutil/check.c:244-304 | while no scan stops early, phases 1 and 1b mark exactly the inodes with a block out of range or one that is referred to more than once |
| FsckMarks.MarkedRun | fsutil/check.c:842-1003 | when at least the marked inodes are cleared, those left hold no bad and no shared block, the volume with the rebuilt list passes, and the volume that the check leaves is consistent if and only if the list was rebuilt or clearing freed nothing |
| FsckImpl.Checker.VisitBlock | fsutil/check.c:244-304 | the passes on the bitmap and the list are the functions |
| FsckImpl.Checker.ScanInode | fsutil/check.c:149-232 | the scan of an inode's blocks in place is the function Scan over them |
| FsckImpl.FreeChecker.Visit5 | fsutil/check.c:655-680 | pass5 on the free map is the function Pass5 |
| FsckImpl.FreeChecker.Check | fsutil/check.c:682-718 | check_free_list ends on every disk and is the function CheckFreeList |
| Skew.DeskewInverse | fsutil/superblock.c:10-26 | deskew has an inverse, and on the disk is a permutation |
| Skew.DeskewInjective | fsutil/superblock.c:10-26 | no two addresses share a place |
| Skew.DeskewRuns | fsutil/superblock.c:10-26 | inside a sector addresses and places run in parallel |
| Skew.Image.UpdateSeek | fsutil/superblock.c:66-75 | after a piece inside a sector the file position is deskew of the seek position |
| Skew.Image.ReadBlock | fsutil/superblock.c:152-168 | a block read succeeds exactly for blocks of the data area on the disk and returns the bytes of the flat disk |
| Skew.Image.Write | fsutil/superblock.c:170-187 | a write by sectors is a write on the flat disk |
| Skew.Image.WriteBlock | fsutil/superblock.c:189-200 | a block write is a write on the flat disk |
| SwitchMachine.CompareMeans | cross-devel/pcc/code.c:359-378 | the condition codes of cmp decide the signed and unsigned order |
| SwitchMachine.DirectDispatches | cross-devel/pcc/code.c:350-391 | sub, cmp, jhi and the table send every word, with wraparound, to its case or the default |
| PccSwitch.SlotsOnce | cross-devel/pcc/code.c:423-432 | the slots 1..n of the heap are visited once each |
| PccSwitch.WholeSize | cross-devel/pcc/code.c:434-441 | the tree in slots 1..n has n slots |
| PccSwitch.HSelect | cross-devel/pcc/code.c:434-441 | hselect(m) is one more than the left half of every subtree with m slots |
| PccSwitch.CodeGen.MakeHeap | cross-devel/pcc/code.c:423-432 | the heap read from left to right is the sorted case list, and no other slot changes |
| PccSwitch.WalkDispatches | cross-devel/pcc/code.c:443-465 | the heap search reaches the equal case or the default for every word |
| PccSwitch.CodeGen.WalkHeap | cross-devel/pcc/code.c:443-465 | walkheap emits that search |
| PccSwitch.CodeGen.GenSwitch | cross-devel/pcc/code.c:338-421 | for every sorted case list each form sends every word to the equal case, or to the default, or out of the end |
| C1Switch.Sort | cross-devel/ccom/c11.c:475-504 | sort reports exactly repeated values and otherwise leaves a strictly sorted permutation |
| C1Switch.Generator.Divisor | cross-devel/ccom/c11.c:426-444 | the divisor is the first with the least product of buckets and longest bucket |
| C1Switch.HashRun | cross-devel/ccom/c11.c:445-463 | the hash form takes the first case whose quotient and remainder match |
| C1Switch.HashExact | cross-devel/ccom/c11.c:426-463 | it dispatches like a lookup if and only if no case is negative or the divisor divides 65535 |
| C1Switch.HashWrongExample | cross-devel/ccom/c11.c:426-463 | ten cases for which pswitch must choose divisor 2 and its switch sends the word -1 to the default |
| C1Switch.HashSwitches | cross-devel/ccom/c11.c:426-463 | with case values 0..32767 the hash form is right on the machine with a program counter |
| C1Switch.Generator.PSwitch | cross-devel/ccom/c11.c:382-463 | repeated values are only reported; otherwise the table and linear forms are switches over the sorted cases, and so is the hash form, with the best divisor, when no case is negative or the divisor divides 65535 (HashExact gives the converse) |
| Conditions.RowRun | cross-devel/pcc/local2.c:749-764 | the code for a table row jumps exactly when the row decides so |
| Conditions.CondMeans | cross-devel/pcc/local2.c:693-704 | each conditional jump reads its relation from the codes of cmp |
| PccBranch.NegrelComplement | cross-devel/mip/reader.c:902 | negrel gives the opposite relation |
| PccBranch.LongRows | cross-devel/pcc/local2.c:722-733 | each row of lbranches decides its relation between 32-bit numbers |
| PccBranch.CBranchRight | cross-devel/mip/reader.c:904-1033 | for every tree and labels, at least one given, in which no pending comparison meets a test of words, the code evaluates the tests in short-circuit order and ends at the right label or falls through |
| PccBranch.ComparesOwn | cross-devel/mip/reader.c:904-1033 | the code compares only what was computed last if and only if that is so |
| PccBranch.StaleWrong | cross-devel/pcc/local2.c:742-775 | a condition that holds but whose code tests the long left pending |
| PccBranch.Emitter.CondBranch | cross-devel/mip/reader.c:904-1033 | cbranch emits that code and uses up those labels |
| PccBranch.Emitter.CbGenFor | cross-devel/pcc/local2.c:742-775 | cbgen emits one jump, or the row for the pending comparison |
| C1Branch.TablesMean | cross-devel/ccom/c11.c:665 | maprel exchanges the operands and notrel negates |
| C1Branch.TstRun | cross-devel/ccom/c13.c:431-440 | the rows of branchtab for tests against 0 jump exactly as told, negated or not |
| C1Branch.LongRows | cross-devel/ccom/c11.c:760-770 | each row of lrtab decides its relation between 32-bit numbers, also with fewer tests for 0 |
| C1Branch.CBranchRight | cross-devel/ccom/c11.c:581-670 | for every tree the code evaluates the tests in short-circuit order and goes to the label exactly when the truth value is the one asked for |
| C1Branch.Emitter.CondBranch | cross-devel/ccom/c11.c:581-670 | cbranch emits that code |
| C1Branch.Emitter.LongRel | cross-devel/ccom/c11.c:772-793 | the two calls of xlongrel emit the row of lrtab |
| C2Run.RevbrComplement | cross-devel/c2/c20.c:69 | revbr gives the opposite condition and is its own inverse |
| C2Moves.Retarget | cross-devel/c2/c20.c:528-539 | a jump to a jump may go to the latter's label |
| C2Moves.SkipReversal | cross-devel/c2/c20.c:540-556 | a conditional skip over a jump is the reversed conditional jump |
| C2Moves.RemoveUnreached | cross-devel/c2/c20.c:557-575 | what follows a jump up to the next label may go |
| C2Moves.RemoveSilent | cross-devel/c2/c20.c:576-590 | a jump to a label just behind it, or a label nothing names, may go |
| C2Moves.MergeTail | cross-devel/c2/c20.c:599-621 | an instruction before a jump may become a jump to the same instruction before the label |
| C2Moves.SwapJumps | cross-devel/c2/c21.c:493-522 | a conditional jump and the jump after it may be exchanged |
| C2Blocks.InsertLabel | cross-devel/c2/c20.c:623-651 | a new label changes no run |
| C2Blocks.MoveBlock | cross-devel/c2/c20.c:653-692 | a block that control neither falls into nor out of may take the place of a jump to it |
| C2Loops.InvertLoop | cross-devel/c2/c20.c:693-729 | the test at the top of a loop, with a jump back to it, may come to the bottom with its condition reversed, and the jump to the top |
| C2Blocks.JoinHeads | cross-devel/c2/c20.c:742-767 | of two equal instructions before jumps to one label the second may go, its jump leading to the first |
| C2Moves.RetargetLabel | cross-devel/c2/c20.c:504-511 | a jump may name any of the labels that follow its own directly |
| C2Impl.Optimizer.RefCount | cross-devel/c2/c20.c:482-519 | every run is preserved, counts are exact, every jump names the last of its labels, and a label without jumps is left only before an entry of a jump table or something unknown |
| C2Impl.Optimizer.Decref | cross-devel/c2/c21.c:622-631 | the count goes down and a label without jumps is unlinked; counts are exact again |
| C2Impl.Optimizer.InsertL | cross-devel/c2/c20.c:623-651 | the label in front of a node, new or reused, has one more count |
| C2Impl.Optimizer.Thread | cross-devel/c2/c20.c:528-539 | threading in place preserves every run, exact counts and well-formedness |
| C2Impl.Optimizer.ReverseSkip | cross-devel/c2/c20.c:540-556 | so does skip reversal |
| C2Impl.Optimizer.RemoveJump | cross-devel/c2/c20.c:576-590 | so does the removal of a jump to the next label |
| C2Impl.Optimizer.XJump | cross-devel/c2/c20.c:598-621 | so does cross-jumping, which ends |
| C2Impl.Optimizer.CodeMove | cross-devel/c2/c20.c:653-730 | so do the block move and the loop inversion, after which less is left to do |
| C2Impl.Optimizer.Invert | cross-devel/c2/c20.c:706-729 | the loop inversion in place, its labels counted, preserves every run and exact counts |
| C2Impl.Optimizer.RemoveDead | cross-devel/c2/c20.c:557-575 | so does the removal of code behind a jump |
| C2Impl.Optimizer.Iterate | cross-devel/c2/c20.c:521-596 | a whole pass ends, preserves every run from every entry, and keeps each count equal to the jumps naming the label |
| C2Impl.Optimizer.BackJmp | cross-devel/c2/c20.c:742-767 | joining equal instructions before two jumps to one label ends and preserves every run and exact counts |
| C2Impl.Optimizer.ComJump | cross-devel/c2/c20.c:732-741 | going through all pairs of jumps to one label does too, and ends |
| C2Impl.Optimizer.JumpSw | cross-devel/c2/c21.c:493-522 | the pass of jumpsw preserves every run, and leaves the places of the nodes in the counts |
| C2Impl.Optimizer.Improve | cross-devel/c2/c20.c:135-144 | any number of turns of the main loop, counts taken anew in each, preserve every run |
| Relax.EstimateExact | cross-devel/as/as26.c:489-501 | the estimate is the final distance plus what shrinks without being reckoned with |
| Relax.RangeSound | cross-devel/as/as26.c:489-501 | when pass 1 gave each statement at least its size, the estimate never undershoots and a short jump is in range |
| Relax.NoGapCovers | cross-devel/as/as16.c:159-174 | without a jbr 255 to 376 bytes back pass 1 does so |
| Relax.SamePlaces | cross-devel/as/as23.c:126-139 | every label has one address in passes 2 and 3 |
| Relax.BranchDecodes | cross-devel/as/as26.c:70-92 | the displacement byte decodes to the target |
| Relax.JumpsLand | cross-devel/as/as26.c:266-282 | every jump reaches its label, as a branch or a jmp, or fails; it fails if and only if it is taken to be in range and is misjudged, its estimate less the uncorrected shrink being over 256, or its label is an odd distance away |
| Relax.NoGapLands | cross-devel/as/as16.c:159-174 | without a jbr 255 to 376 bytes back no jump is misjudged |
| Relax.GapFails | cross-devel/as/as16.c:159-165 | a program whose first jump is marked short and ends up out of range |
| Relax.Assembler.SetBr | cross-devel/as/as26.c:489-501 | setbr records exactly the jumps out of range |
| Relax.Assembler.Assemble | cross-devel/as/as26.c:266-282 | the three passes compute the layout and the jumps of the functions |
| LdSymbols.RejectRestores | cross-devel/ld/ld.c:531-540 | a rejected member leaves names and types as before and common blocks as large as it asks for |
| LdSymbols.LoadedSettled | cross-devel/ld/ld.c:494-530 | a loaded member defines nothing any more |
| LdSymbols.RejectedUseless | cross-devel/ld/ld.c:531-540 | a rejected member could define nothing that is still undefined |
| LdHash.SlotFree | cross-devel/ld/ld.c:126-147 | every search comes to an empty slot, there being more slots than symbols |
| LdHash.FoundIs | cross-devel/ld/ld.c:137-146 | where a search stops is the symbol of that name, or an empty slot if there is none |
| LdHash.EnterHashed | cross-devel/ld/ld.c:149-166 | a symbol put into the slot where the search for it stopped is found there, and all others where they were |
| LdRun.DefinitionPlaced | cross-devel/ld/ld.c:494-809 | over every run of load1 followed by middle: the entry of a name that is defined once is what load2 computes for the definition if and only if load1 did not refuse it for a common block |
| LdRun.RefusedWrong | cross-devel/ld/ld.c:519-520 | two files for which it is refused |
| LdRun.CommonsApart | cross-devel/ld/ld.c:600-643 | common blocks lie apart from each other, behind the data and before bss |
| LdRun.MiddleKnown | cross-devel/ld/ld.c:793-795 | load2 finds every external name of the files taken |
| LdRun.WordHolds | cross-devel/ld/ld.c:719-759 | a word that refers by name to such a definition, not refused, holds its place in the segment of the definition, also one past its end, offset included, less the pc shift |
| LdRun.SpotKeepsDistance | cross-devel/ld/ld.c:733-742 | the place of an address in a segment is as far from the place of every byte of that segment as the addresses are apart, whether or not the address lies in it |
| LdRun.WordCommon | cross-devel/ld/ld.c:743-751 | one that refers to a common block holds the place of the block, or its offset alone while undefined symbols remain |
| LdRun.WordLocal | cross-devel/ld/ld.c:733-742 | one that holds any address of its own file, relative to a segment, comes to hold the place of that address, as far from the bytes of the segment as before |
| Ld.Linker.Lookup | cross-devel/ld/ld.c:126-147 | lookup ends at the slot of the name or at the empty one where it belongs |
| Ld.Linker.Load1 | cross-devel/ld/ld.c:469-540 | load1 loads exactly members that define something; a rejected one leaves every hash slot, name and type as before; it fails exactly when the table overflows |
| Ld.Linker.LoadArchive | cross-devel/ld/ld.c:542-578 | the scan ends, loads no member twice, lists those loaded, and at its end no member defines a symbol still undefined |
| Ld.Linker.MiddlePass | cross-devel/ld/ld.c:580-687 | the loops of middle compute that layout and the final values |
| Ld.Linker.Load2 | cross-devel/ld/ld.c:762-823 | load2 writes those words, and reports exactly the definitions that differ from the table |
| Ld.Linker.Link | cross-devel/ld/ld.c:988-1012 | the second pass visits the files that the first has loaded, in that order, and writes what they are to hold |
| Ld.ClashedIff | cross-devel/ld/ld.c:804-808 | where each name has one definition, "Multiply defined" is reported if and only if one was refused |

## Left out

- Printing, options, temporary files, directories and path names, packing of inodes and directory entries on disk: input and output, and easy members.
- fsutil after a failed allocation: alloc then pops the 0 at the bottom of the list and nothing puts it back; runs end there. A free list with more than 100 slots in core counts as a failed allocation.
- fsutil files beyond 7 * 256 logical blocks, but for the mapping of single blocks and for freeing.
- A disk has exactly fsize blocks; words 101 to 255 of a spilled block are arbitrary.
- FsckBlocks.Pass4Counts: the model also lowers the number of duplicates found more than once to the length of the list; the source leaves it, and does not use it after phase 1b.
- fsck's passes 2 and 3 and lost+found: dominated by names and messages.
- Skew.Image.Write: from the beginning of a sector and on the disk, as every caller writes; pieces that cross a sector elsewhere are not described.
- Skew.Image.WriteBlock: blocks on the image; no caller writes behind its end.
- Switch code: swend's own sort in pcc's grammar, and an overflow of the switch tables (at most 209 and 300 cases).
- Branch code: selecting instructions for the operands, floating point, and c1's fallback for long expressions without a table entry. cbgen's pending comparison is modelled, the registers it names are not.
- PccBranch.CBranchRight: in one direction; a tree whose code compares a foreign long can still come out right, as when both alternatives of a conditional are the same, so ComparesOwn is what is exact.
- The improver: addsob, fixupbr and register tracking. Jumps are to labels of the list; an indirect jump ends a run, which goes on at an entry.
- C2Impl.Optimizer.Improve: how often iterate runs in a turn, and how many turns there are, are parameters; the source goes on while something changes, and whether that always ends is not stated.
- C2Impl.Optimizer.RemoveDead: stops at an entry of a jump table directly behind a jump; the source takes it away, but compilers put a label or .data before a table.
- Relax: one segment of less than 32 Kbytes with at most 1024 jumps, so addresses do not wrap.
- Relax.RangeSound: that pass 1 covers pass 2 is sufficient; a jump marked short can be in range without it.
- The linker: options other than those of middle and -u, the symbol table and the relocation bits that are written out, and running on after an error that leaves no output. Names are at most eight characters below 128; sizes of files do not wrap, values and words do.
- Fixed table sizes elsewhere are not modelled.
