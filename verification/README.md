# WeensyOS: page tables, processes, loading and printing

A model of the WeensyOS kernel and proofs about it. Physical memory is 512 pages
of 512 words; page tables live in it and are only a view of it. `pageinfo[]`
records, process descriptors and `current` complete the state. A user store or one
completed trap is a step. The operations are given twice. As functions on values
(`Spaces`, `Duplicate`, `Forks`, `Exits`, `Kernel`, `Loader`, `Boot`, `Printf`) they
are what the lemmas talk about. As methods on arrays (`Paging`, `Machine`,
`LoaderMachine`, `BootMachine`, `Numbers`, `Printf`) they have the loops of the C
code, and each is proved to compute its function. A failed `assert` is the result
`Panic`. Every trap runs the asserts the kernel runs: `set_pagetable` and
`check_virtual_memory` on entry, those of the handler, and `set_pagetable` again when
a process is resumed.

The invariant (`Spaces.Inv`) gives every physical page one role: free, reserved or
kernel, table page of one process, private page behind one writable mapping, shared
page behind read-only mappings at one address, or lost. `Exact` adds that counts
equal references; `Owned` adds that every shared page is on record to one of its
sharers.

Runs come in three modes (`Kernel.Allowed`). In every mode a fork must find enough
memory (five pages and one for each writable page of the parent), and a page_alloc
address must pass the alignment assert.

* `Loose` runs allow every other page_alloc below 2^48, but forks need room in the
  8-bit counts.
* `Tight` runs allow only page_allocs of unmapped, aligned addresses in the user
  range.
* `Checked` runs moreover have no process exit while it owns a page with two or
  more references.

The main results:

* `Runs.EveryRunIsSafe` and `Runs.EveryStepIsSafe`: in every run from power-on, of any
  length, table pages are private, writable pages have one reference, counts are exact
  (at least sufficient in `Loose` runs), the kernel part of every table is the
  identity, no live process reaches a page of the kernel, lookups agree with the
  processor, the asserts of `set_pagetable` hold, no step disturbs another process,
  every trap keeps and answers registers and chooses the next process as it should, and
  forks are deep copies.
* `Runs.SelfCheckIff`: in every mode, `check_virtual_memory` passes in every state of a
  run exactly when every exit in it releases each page on record to the process. In
  `Checked` runs it always passes.
* `Runs.RunPanicsIff` and `Runs.NoRunPanics`: a trap out of a run stops the kernel, or
  leaves it undefined, exactly when the self-check fails, a misaligned page_alloc has a
  page to map (both stop it), or a fork finds a process slot but fewer than five free
  pages (`exception` then returns into code that does not expect it). In `Checked` runs
  no allowed step does either.
* `Runs.RunForkCopiesIff`: a fork out of a run that completes copies every user page
  exactly when memory sufficed; otherwise the child sees page 0 behind some page it may
  write.
* `ForkProperties.ForkExitRoundTrip`, `Scheduler.BoundedWaiting`,
  `LoadProperties.LoadProgramMeaning`, `Paging.MapThenLookup`,
  `Paging.VirtualMemoryMap`, `Traps.TrapMeaning`, `Directives.IntegerDirective` and
  `Printf.Vsnprintf`.

Two promises do not hold in general; each has its exact condition and, for every
layout and memory, a run from power-on in which it fails.

* From a consistent state that passes it, the self-check survives an exit if and only
  if every page in use on record to the process has one reference and is a table page
  of the process or behind one of its user-range mappings (`SelfCheck.ExitCheckIff`).
  Where counts are exact and owners in place this says that the process owns no page
  with two or more references (`SelfCheck.ExitSelfCheck`). The first part fails after
  a fork (`Limits.UncheckedExitFails`: the next trap then stops the kernel), the
  second after a rejected page_alloc (`Limits.LostPageExitFails`).
* With arbitrary page_allocs, counts cover references after a fork if and only if no
  read-only page of the parent has count 127, because the count is an `int8_t`
  (`Overflow.ForkCountsIff`). `Limits.CountWrapsInARun` is a run in which every
  self-check passes and the next fork wraps a count.

Where the code and its comments differ, the model follows the code.
`virtual_memory_lookup` masks an entry with the complement of the bits inherited so
far, so it does not report the conjunction over the levels that the hardware uses
(`Paging.LookupReportsBits`); the two agree on every table the kernel builds. The
test for a zero count in exit (kernel.c:420) comes before the decrement and never
succeeds, so a read-only page keeps its owner when its count reaches 0.

## Model

| member | source | states |
|---|---|---|
| `X86.IndicesOf` | x86-64.h:29-33 | the four page indices and the page offset put together are the address |
| `X86.UpperIndices` | x86-64.h:29-33 | addresses in one 2 MB region have the same three upper page indices |
| `X86.SamePage` | x86-64.h:29-33 | two addresses are on one page iff they share the region and the last index |
| `Paging.VirtualMemoryLookup` | vm.c:194-208 | the loop reports `Lookup` of the four entries, for every table whose walk stays in memory |
| `Paging.LookupReportsBits` | vm.c:194-208 | on every fully present walk W and U are reported iff level 4 has them and level 3 having them implies level 2 does |
| `Paging.LookupAgreesWithHardware` | vm.c:194-208 | on well-formed tables W and U are reported iff all four levels grant them |
| `Paging.LookupExact` | vm.c:194-208 | a well-formed table reports exactly the flags and frame of the last entry, or unmapped |
| `Paging.LookupL4Pagetable` | vm.c:148-187 | returns the last-level table exactly when all three upper entries are present |
| `Paging.MapThenLookup` | vm.c:74-140 | after a map the covered addresses look up as `pa + X` with `perm` (or as unmapped without P), every other 48-bit address as before; the result says whether all were covered; the table stays well-formed |
| `Paging.MappedAll` | vm.c:86-87 | all pages are covered iff P is clear or every page has a last-level table |
| `Paging.LeafWriteUpper` | vm.c:125-132 | writing a last-level entry changes no interior entry of the table |
| `Paging.VirtualMemoryMap` | vm.c:98-140 | the walk with the cached last-level table has the same memory and result as walking from the root for every page |
| `Tables.WiredWellFormed` | vm.c:26-34 | the five-page tables the kernel builds are well-formed |
| `Tables.LookupWired` | kernel.c:153-156 | such a table maps exactly what its 1024 slots say and nothing from 4 MB on |
| `Tables.WriteSlotKeeps` | kernel.c:160-164 | writing a slot changes that slot only and keeps the wiring |
| `Spaces.FindFree` | kernel.c:172-176 | the least free page from a start on, or none |
| `Spaces.SlotWrite` | kernel.c:373-377 | mapping a page in one process's table changes one slot of all tables and no other page |
| `Spaces.DataKeeps` | kernel.c:372 | writing pages that hold no table changes no mapping and keeps the invariant, exactness and ownership |
| `Alloc.PageAllocKeeps` | kernel.c:184-200 | page_alloc at any aligned 48-bit address (or below the user range) panics never and keeps the invariant; a good request keeps exactness and maps the least free page at exactly that address |
| `Alloc.PageAllocForm` | kernel.c:184-200 | the effect of page_alloc in each case: rejected low address, no table, mapped; the page is taken in all three |
| `Duplicate.AllocTakes` | kernel.c:171-181 | an allocation takes the least free page, and fails iff none is free |
| `Duplicate.AllocSucceeds` | kernel.c:142-146 | five pages are obtained iff five are free |
| `Duplicate.CopyLowMeaning` | kernel.c:160-164 | the copy loop repeats the source's low slots and writes only the new table's last-level pages |
| `Duplicate.FreshTableMeaning` | kernel.c:141-168 | the new table equals the source below PROC_START_ADDR, is unmapped at every other 48-bit address, uses exactly the five lowest free pages, and leaves the source's lookups unchanged |
| `Duplicate.JoinSpace` | kernel.c:141-168 | a process with such a table joins the live ones; invariant, exactness and ownership are kept |
| `Forks.ForkStep` | kernel.c:368-380 | one iteration keeps the loop invariant and takes a page exactly when it copies one |
| `Forks.ForkKeeps` | kernel.c:365-380 | a guarded fork panics never, keeps invariant, exactness and ownership, and takes exactly five pages and one per writable page |
| `ForkProperties.ForkIsDeepCopy` | kernel.c:359-397 | the child has the parent's permissions and contents on every user page, fresh distinct frames where writable, the same frame where read-only; the parent's view is unchanged; registers agree but for rax |
| `Copies.DeepCopyIff` | kernel.c:368-380 | in a consistent state a fork that completes copies every user page iff there were five free pages and one for each writable page, whatever the counts |
| `Copies.SomeGetsZero` | kernel.c:371-373 | with more pages to copy than free ones the unchecked allocation maps page 0 at some page the parent may write |
| `ForkProperties.ForkExitRoundTrip` | kernel.c:399-432 | fork, any run of stores, yields, timer interrupts and getpids, then the child's exit: every count is back to its value before the fork |
| `ForkProperties.QuietRunKeeps` | kernel.c:309-338 | such runs change no record and no mapping |
| `Exits.ExitForm` | kernel.c:399-432 | the record of every page after the walk of the released table, in closed form |
| `Exits.ExitKeeps` | kernel.c:399-432 | exit keeps the invariant and exactness; every shared page keeps a live owner iff none with two references belonged to the exiting process |
| `Steps.StoreKeeps` | kernel.c:92-93 | a permitted user store changes no mapping and keeps everything |
| `Steps.ExactSmall` | kernel.c:46-57 | exact counts are at most NPROC - 1 |
| `Steps.StepKeeps` | kernel.c:264-447 | every allowed store, and every allowed trap into a machine that passes the self-check, succeeds with all asserts of entry, handler and resumption, and keeps the invariant of its mode |
| `Steps.TrapOkIff` | kernel.c:264-285 | in every mode an allowed trap completes iff check_virtual_memory passes |
| `Properties.CountsByRole` | kernel.c:46-57 | counts cover user mappings plus tables of every page; under exactness they are equal and at most 15 |
| `Properties.TablesArePrivate` | kernel.c:141-168 | five distinct table pages per live process, owned by it with count 1, mapped by nobody |
| `Properties.WritableIsPrivate` | kernel.c:368-380 | a page behind a writable mapping is owned by that process with count 1 and reached from that one address only |
| `Properties.KernelSpaceKept` | kernel.c:92-93 | below PROC_START_ADDR every live table is the identity with P and W, with U on the console page only |
| `Properties.KernelPagesAreSafe` | kernel.c:489-507 | in every consistent state page 0x7F and the pages of [0x40000, end) have the record (PO_KERNEL, 1), page 0 and those of [0xA0000, 0x100000) have (PO_RESERVED, 1), and none of them is a table page of a live process or behind a mapping of one from PROC_START_ADDR on |
| `Properties.HardwareAgreement` | vm.c:194-208 | for every live table the reported W and U are the processor's |
| `Properties.Isolation` | kernel.c:160-164 | a user store changes one page, the console or one only the storing process references; no page-table word changes and no other process is disturbed |
| `Noninterference.StepUndisturbed` | kernel.c:264-447 | whatever the current process does, every other live process keeps registers, lookups and the contents behind every mapping from PROC_START_ADDR on |
| `Traps.TrapMeaning` | kernel.c:264-447 | for every trap that completes, in any state: the process finds exactly the registers it trapped with, but for rax after getpid (its pid), page_alloc (0 iff the address is in the user range and a page is free, else -1) and fork (the first free slot, or -1); its state becomes broken on a fault, free on exit; the child has the same registers with rax 0; every other descriptor is kept; yield, timer, exit and fault go on to the cyclically next runnable process, every other call returns to the same one |
| `Traps.PageAllocMeaning` | kernel.c:184-200 | a good request sets rax to 0 iff a page that was free is now behind the address, else to -1; the page is the least free one, on record to the process, mapped with P, W and U, and every other address looks up as before; without a free page nothing changes |
| `Traps.StoreMeaning` | kernel.c:92-93 | a user store puts its value into the 8-byte word of physical memory that the address translates to and leaves every other word alone |
| `Activation.SetPagetableHolds` | vm.c:60-72 | a table that maps the kernel's part to itself passes every assert, once the kernel's own table maps all physical memory to itself |
| `Activation.KernelActivates` | vm.c:60-72 | the kernel's table passes |
| `Activation.LiveActivates` | kernel.c:478 | the table of every live process passes |
| `SelfCheck.CheckIsRecords` | kernel.c:583-611 | in every consistent state check_virtual_memory passes iff every page in use on record to a process is on record to a live one |
| `SelfCheck.MappingsMeaning` | kernel.c:514-536 | for any table the mapping check passes iff every page from 0x40000 up to the end of the kernel, and the stack page 0x7F000, looks up as itself, data and stack writable |
| `SelfCheck.OwnershipMeaning` | kernel.c:562-576 | for any page and level the recursive check passes iff every path of nonzero entries, down to level 3, ends at an installed page on record to the owner with the expected count |
| `SelfCheck.SelfCheckHolds` | kernel.c:514-611 | under the invariant with ownership every assert of check_virtual_memory holds |
| `SelfCheck.ExitCheckIff` | kernel.c:399-432 | from every consistent state that passes it, the self-check holds after an exit iff each page in use on record to the process has one reference and is in its table or behind a user-range mapping |
| `SelfCheck.ExitSelfCheck` | kernel.c:583-611 | with exact counts and owners in place that is: the process owns no page with two or more references |
| `SelfCheck.CheckAfterStep` | kernel.c:264-447 | in every mode the self-check passes after a step iff it passed before and the step, if an exit, releases what is on record to the process |
| `Panics.SaneLoop` | kernel.c:368-380 | the fork loop never panics, with or without memory, and leaves every page in use alone but page 0, the child's table and possibly the parent's user pages |
| `Panics.ForkPanicsIff` | kernel.c:359-397 | a fork that finds a slot goes through iff five pages are free, and the parent's table can then be activated |
| `Panics.PageAllocPanicsIff` | kernel.c:184-200 | page_alloc panics iff the address is in or above the user range, misaligned, and a page is free |
| `Panics.TrapPanicsIff` | kernel.c:264-447 | from every consistent state a trap stops the kernel iff the self-check fails or the request is one of those two |
| `Scheduler.ScheduleMeaning` | kernel.c:454-464 | the search ends within NPROC iterations at the cyclically next runnable process iff there is one |
| `Scheduler.BoundedWaiting` | kernel.c:454-464 | a process that stays runnable is dispatched by the time the processor has been given up NPROC times (by a yield, a timer interrupt, or a trap after which the process is not runnable), in any sequence of steps |
| `Bytes.PutThenGet` | k-loader.c:106-107 | storing a byte in a page of words changes that byte only |
| `Loader.StoreBytesMeaning` | k-loader.c:106-107 | storing a block through the process's table changes exactly those bytes of the process's memory |
| `Loader.MakeReadOnlyMeaning` | k-loader.c:108-111 | the downgrade loop keeps frames and contents and clears W on exactly those pages |
| `LoadProperties.LoadSegmentMeaning` | k-loader.c:83-116 | loading succeeds iff enough pages are free; then the segment reads back as image then zeros, on frames that were free, no two pages on one frame, writable iff its flag says so, nothing mapped before and no page of another process is disturbed, and the tables activated before and after the copy pass |
| `LoadProperties.LoadProgramMeaning` | k-loader.c:51-73 | loading a program succeeds iff enough pages are free; then every segment reads back, whatever was loaded after it, every page of the program lies on its own frame, free before, and the pages of other processes are untouched |
| `Boot.InitialTableMeaning` | vm.c:22-38 | virtual_memory_init maps all of physical memory to itself and nothing else |
| `Boot.BootTable` | kernel.c:92-93 | the kernel then withdraws the low part from user code except for the console page |
| `Boot.InitRecordsMeaning` | kernel.c:489-507 | the initial record of every page by its physical address: kernel image and stack withheld for the kernel, page 0 and the I/O hole reserved, all else free |
| `Boot.BootGood` | kernel.c:489-507 | the records and table at power-on satisfy the strongest invariant |
| `Boot.SetupSucceedsIff` | kernel.c:128-139 | process_setup succeeds iff there are five pages and the program's |
| `Boot.SetupKeeps` | kernel.c:128-139 | a successful process_setup adds one runnable process with the given registers and its program loaded, keeps everything and every page of the others, and maps the stack page iff a page is left for it |
| `Boot.OtherProgram` | kernel.c:104-116 | setting up one process leaves the programs loaded for the others as they were |
| `Runs.SetupAllKeeps` | kernel.c:104-116 | after all process_setups every job is runnable with its own registers and program, whatever was set up after it |
| `Runs.InitialGood` | kernel.c:86-121 | every state in which the kernel first runs process 1 satisfies the strongest invariant; its processes are exactly those of the jobs, each with its registers and program |
| `Runs.EveryRunIsSafe` | kernel.c:514-611 | every state of every run from power-on is safe: ownership, counts, kernel space, the records of the kernel's and the reserved pages by address, hardware agreement, set_pagetable's asserts, and in checked runs the self-check |
| `Runs.EveryStepIsSafe` | kernel.c:264-447 | every step of every run from power-on disturbs no other process, stores exactly the word it should, has the effect of its trap on registers, results and the next process (`TrapMeaning`), serves good page_allocs, copies forks deeply, and makes the self-check fail only by an exit that leaves records behind |
| `Runs.SelfCheckIff` | kernel.c:514-611 | in every mode the self-check passes throughout a run from power-on iff every exit in it releases each page on record to the process |
| `Runs.NoRunPanics` | kernel.c:264-447 | an allowed step out of a run from power-on succeeds iff it is a store or the self-check passes; in checked runs it always does |
| `Runs.RunPanicsIff` | kernel.c:264-447 | any trap out of a run from power-on stops the kernel iff the self-check fails, a misaligned page_alloc has a page to map, or a fork has a slot but fewer than five free pages (in the last case the handler returns where it must not) |
| `Runs.RunForkCopiesIff` | kernel.c:359-397 | a fork out of a run from power-on that completes copies every user page iff memory sufficed |
| `Overflow.ForkWraps` | kernel.c:378 | a fork with enough memory always completes; a read-only page with count 127 comes out with -128 |
| `Overflow.ForkCountsIff` | kernel.c:375-379 | after a fork with enough memory counts cover references iff no read-only page of the parent had count 127 |
| `Limits.UncheckedExitFails` | kernel.c:605-610 | for every layout a run from power-on: one fork, then an exit after which every trap stops the kernel |
| `Limits.LostPageExitFails` | kernel.c:192-194 | for every layout a run from power-on: a rejected page_alloc, after which exit fails the self-check although the process owns no page with two references |
| `Limits.LeakRound` | kernel.c:184-200 | fork, page_alloc over the shared page by the child, exit, every self-check passing: the page's count is one higher, every other count, every record in use and every mapping of the process is as before |
| `Limits.CountWrapsInARun` | kernel.c:378 | for every layout a run from power-on, every self-check passing, after which a fork with memory to spare completes and gives a page that is still mapped the count -128 |
| `Machine.KernelMachine.constructor` | kernel.c:46-57 | arrays of 512 pages, 512 records and 16 descriptors and a valid layout make a machine on which every method can be called |
| `Machine.KernelMachine.AssignPhysicalPage` | kernel.c:208-218 | succeeds iff the address is an aligned, existing, free page, and then records it to the owner |
| `Machine.KernelMachine.AllocPageProcess` | kernel.c:171-181 | the search loop takes the least free page |
| `Machine.KernelMachine.SysPageAllocFindFree` | kernel.c:184-200 | the method computes `AllocAt` on memory and records for every 48-bit address, and stops where the alignment assert fails |
| `Machine.KernelMachine.DuplicatePagetable` | kernel.c:141-168 | the method computes `DuplicatePagetable`, including the failure that keeps the pages taken |
| `Machine.KernelMachine.CopyLowLoop` | kernel.c:160-164 | the loop computes `CopyLow` |
| `Machine.KernelMachine.ForkLoopMethod` | kernel.c:368-380 | the loop computes `ForkPages`, also when memory runs out |
| `Machine.KernelMachine.SysFork` | kernel.c:359-397 | the handler computes `SysFork` from every consistent state |
| `Machine.KernelMachine.ExitLoopMethod` | kernel.c:416-430 | the walk computes `ExitPages` |
| `Machine.KernelMachine.SysExit` | kernel.c:399-432 | the handler computes `SysExit` |
| `Machine.KernelMachine.SetPagetable` | vm.c:60-72 | true iff every assert of set_pagetable holds |
| `Machine.KernelMachine.Run` | kernel.c:473-478 | makes a runnable process current and succeeds iff its table can be activated |
| `Machine.KernelMachine.Schedule` | kernel.c:454-464 | the loop ends at the cyclically next runnable process and runs it |
| `Machine.KernelMachine.HandleTrap` | kernel.c:264-438 | saving registers, the two checks and the switch, which finds the page_alloc address in the saved rdi, compute `Trapped` from every consistent state |
| `Machine.KernelMachine.Exception` | kernel.c:264-447 | the handler followed by run or schedule computes `Kernel.Exception` from every consistent state; it reports when schedule would spin because nothing is runnable |
| `Machine.KernelMachine.CheckPageTableMappings` | kernel.c:514-536 | true iff every assert of the loop and of the stack check holds |
| `Machine.KernelMachine.CheckOwnershipLevel` | kernel.c:562-576 | true iff the recursive walk meets only pages with the expected owner and count |
| `Machine.KernelMachine.CountKernelUsers` | kernel.c:546-559 | the number of live processes on the kernel's own table |
| `Machine.KernelMachine.CheckVirtualMemory` | kernel.c:583-611 | true iff every assert of check_virtual_memory holds |
| `LoaderMachine.LoadPagesLoop` | k-loader.c:92-100 | the loop computes `LoadPages` |
| `LoaderMachine.StoreBytesLoop` | k-loader.c:106-107 | writing byte by byte through the table computes `StoreBytes` |
| `LoaderMachine.MakeReadOnlyLoop` | k-loader.c:108-111 | the loop computes `MakeReadOnly` |
| `LoaderMachine.ProgramLoadSegment` | k-loader.c:83-116 | the method computes `LoadSegment`, activating both tables on the way |
| `LoaderMachine.ProgramLoad` | k-loader.c:51-73 | the loop over segments computes `LoadProgram` |
| `BootMachine.VirtualMemoryInit` | vm.c:22-52 | the method builds `InitialTable`; its identity check and the asserts of set_pagetable pass |
| `BootMachine.PageinfoInit` | kernel.c:489-507 | the loop gives every page its initial record, the one `InitRecordsMeaning` states by address |
| `BootMachine.KernelStart` | kernel.c:86-93 | the kernel's start-up computes `BootMemory` and the initial records |
| `BootMachine.ProcessSetup` | kernel.c:128-139 | the method computes `ProcessSetup`, or fails where that panics |
| `Numbers.DigitsRoundTrip` | lib.c:112-128 | reading the digits of a number back in its base gives the number |
| `Numbers.NoLeadingZero` | lib.c:112-128 | no leading zero but for 0 itself; all characters are digits of the base |
| `Numbers.DigitsFit` | lib.c:143-144 | every 64-bit value has at most 20 digits |
| `Numbers.FillNumbuf` | lib.c:112-128 | the digits end at the NUL in the last of 24 cells; nothing before them is written |
| `Printf.LayoutShape` | lib.c:267-298 | left spaces, prefix, zeros, data, right spaces, max(width, prefix + zeros + data) characters in all, padded on the side the flag selects |
| `Printf.SignedRecovered` | lib.c:203-260 | prefix, zeros and digits of a signed conversion read back as the argument, whatever flags, width and precision |
| `Printf.UnsignedRecovered` | lib.c:211-226 | zeros and digits of an unsigned or pointer conversion read back as the argument |
| `Printf.SignedConversion` | lib.c:203-210 | d and i take the argument as a signed value of their size; sign prefix, zeros and decimal digits without leading zero read back as that value |
| `Printf.UnsignedConversion` | lib.c:211-226 | u, x, X and p take the argument modulo the size of their type; the digits, in the base and case of the character, read back as that value, with 0x or 0X exactly where it belongs |
| `Directives.FlagsMeaning` | lib.c:152-161 | the flag scan ends at the first character that is none of the five, and each flag is set iff its own character occurred |
| `Directives.NumberMeaning` | lib.c:163-181 | the number scan ends at the first character that is no digit and yields the decimal value of the digits |
| `Directives.ScansParts` | lib.c:152-202 | of a directive written as flags, width, precision, length and conversion the scans find exactly these parts, each `*` taking the next argument |
| `Directives.IntegerDirective` | lib.c:197-298 | what a %d, %i, %u, %x, %X or %p prints, by its text: spaces, prefix, zeros, digits and spaces that show the argument modulo its size, padded to the width on the side that `-` selects; zeros only for a precision or for `0` without `-` |
| `Directives.TextDirective` | lib.c:227-298 | what %s, %c, any other character and the end of the format print: the text cut to the precision, padded with spaces to the width on the side that `-` selects, never with zeros |
| `Directives.ColorDirective` | lib.c:230-232 | %C prints nothing and sets the color for what follows |
| `Directives.PlainText` | lib.c:145-149 | text without a % is printed as it is |
| `Directives.ThenDirective` | lib.c:145-299 | a directive prints its output and the rest follows with the arguments and the color it leaves |
| `Printf.StringPrinter.Putc` | lib.c:350-356 | the sink holds the first characters put, up to its end, and nothing else of the buffer changes |
| `Printf.DirectiveOne` | lib.c:152-299 | scanning and printing one directive computes `Directive` (what that prints: `IntegerDirective`, `TextDirective`), never reading past the NUL |
| `Printf.PrinterVprintf` | lib.c:142-301 | the interpreter terminates and puts exactly `Format` of the format and arguments |
| `Printf.Vsnprintf` | lib.c:358-368 | the buffer gets the first min(size - 1, full length) characters of the unbounded output and a NUL, nothing else changes, and that count is returned |

## Left out

- Addresses of 2^48 and above: `pageindex` ignores the upper bits; user stores and page_alloc take 48-bit addresses.
- Accessed and dirty bits, which the processor sets in page-table entries, are not modelled.
- TLB, cr3, interrupt entry and exit: `run` is "set current" and the asserts of `set_pagetable`, which is those asserts only.
- A user store replaces the whole 8-byte word that holds the address; narrower and unaligned stores are sequences of such steps.
- Registers are rax, rdi and an uninterpreted rest; the entry point, rsp and the other values of `process_init` are parameters of process_setup.
- INT_SYS_PANIC, INT_SYS_MAPPING, INT_SYS_MEM_TOG, kernel-mode faults and unknown interrupts.
- Console drawing, memshow, keyboard, timer, `ticks` and log output.
- `++pageinfo[-1]` for unmapped pages in fork (kernel.c:378) is modelled as touching no page record.
- The failing `duplicate_pagetable` in fork makes `exception` return where its caller expects it not to (kernel.c:386-390); that is a `Panic`, not a state.
- process_setup with too little memory for a table goes on with a NULL table until program_load fails; the model ends in `Panic` at once, which differs only for a program without pages.
- Failed loads: program_load_segment keeps the pages it took; the kernel then stops, so nothing further is stated about them.
- Segments that are not page-aligned, overlap a page, or leave the user range (link/process.ld aligns them), and segments with filesz above memsz.
- Linker addresses are parameters constrained by `Layout.Valid`: the kernel's data ends below 0xA0000 and its five tables are among its pages.
- memset and memcpy of whole pages in kernel.c and vm.c are page assignments; in k-loader.c they go byte by byte.
- Machine.KernelMachine.Schedule: requires a runnable process, since the loop never ends without one; `Kernel.Exception` then leaves the state as it is.
- Paging.VirtualMemoryMap: requires a well-formed table, of which the asserts on the upper entries are consequences; on other tables a write may change the table being walked.
- Overflow of `int` in a width or precision, `%s` with NULL, and arguments of the wrong kind, which C leaves undefined (`Format` is `None` for the last).
- The console sink of the formatter, `rand`, and the one-loop string helpers.
- hardware set-up, boot loader, disk and PCI code, user programs and tests.
