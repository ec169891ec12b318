/** From power-on to the first user process: `virtual_memory_init` (vm.c:22-52),
    `pageinfo_init`, `kernel` and `process_setup` (kernel.c:86-139, 489-507). */
module Boot {
  import opened X86
  import opened Paging
  import opened Tables
  import opened Spaces
  import opened Alloc
  import opened Duplicate
  import opened Forks
  import opened Kernel
  import opened Properties
  import opened Loader
  import opened LoadProperties

  // --------------------------------------------------------------- operations

  /** What `virtual_memory_init` builds: identity over physical memory for everyone. */
  function InitialTable(lay: Layout, mem: Memory): Memory
    requires lay.Valid()
  {
    var t := lay.KernelTable();
    MapPages(Wire(ClearFive(mem, t), t), t.l1, 0, 0, 512, 7).0
  }

  /** `kernel` then withdraws it from user code below PROC_START_ADDR, except for
      the console. */
  function BootMemory(lay: Layout, mem: Memory): Memory
    requires lay.Valid()
  {
    var m := MapPages(InitialTable(lay, mem), lay.tables, 0, 0, 256, 3).0;
    MapPages(m, lay.tables, 0xB8000, 0xB8000, 1, 7).0
  }

  function InitRecords(lay: Layout): (info: Info)
    ensures forall x :: 0 <= x < 512 ==> info[x] == InitInfo(lay, x)
  {
    seq(512, x requires 0 <= x < 512 => InitInfo(lay, x))
  }

  function NoProcesses(): (procs: Procs)
    ensures forall p :: 0 <= p < 16 ==> procs[p] == Proc(Registers(0, 0, []), P_FREE, 0)
  {
    seq(16, _ => Proc(Registers(0, 0, []), P_FREE, 0))
  }

  function BootState(lay: Layout, mem: Memory): State
    requires lay.Valid()
  {
    State(lay, VM(BootMemory(lay, mem), InitRecords(lay)), NoProcesses(), 0)
  }

  /** process_setup with the registers it prepares. Without memory for a table, or
      when the load fails, the kernel does not get past it. */
  function ProcessSetup(s: State, pid: nat, segs: seq<Segment>, regs: Registers): (r: Result<State>)
    requires pid < 16 && forall x :: x in segs ==> x.Readable()
  {
    var (k1, root) :- DuplicatePagetable(s.vm, s.lay.tables, pid);
    if root == 0 then
      Panic
    else
      var (k2, loaded) :- LoadProgram(s.lay, k1, root, pid, segs);
      if loaded < 0 then
        Panic
      else
        var (k3, _) :- AllocAt(k2, root, pid, MEMSIZE_VIRTUAL - 4096);
        Ok(s.(vm := k3, procs := s.procs[pid := Proc(regs, P_RUNNABLE, root)]))
  }

  datatype Job = Job(pid: nat, segs: seq<Segment>, regs: Registers)

  /** The programs `kernel` starts, in order. */
  function SetupAll(s: State, jobs: seq<Job>): (r: Result<State>)
    requires forall j :: j in jobs ==> j.pid < 16 && forall x :: x in j.segs ==> x.Readable()
    decreases |jobs|
  {
    if jobs == [] then
      Ok(s)
    else
      var s1 :- ProcessSetup(s, jobs[0].pid, jobs[0].segs, jobs[0].regs);
      SetupAll(s1, jobs[1..])
  }

  // ------------------------------------------------------------- kernel table

  /** Mapping a range through a wired table writes that range of slots. */
  lemma {:induction false} MapRange(mem: Memory, t: Table, v: nat, pa: nat, n: nat, perm: nat)
    requires Wired(mem, t) && v + n <= 1024 && MapArgs(v * 4096, pa, n, perm)
    ensures var (m, r) := MapPages(mem, t.l1, v * 4096, pa, n, perm);
            && r == 0 && Wired(m, t)
            && (forall u :: 0 <= u < 1024 && !(v <= u < v + n) ==> Slot(m, t, u) == Slot(mem, t, u))
            && (Present(perm) ==> forall u :: v <= u < v + n ==> Slot(m, t, u) == pa + (u - v) * 4096 + perm)
    decreases n
  {
    hide MapPages, Wired, Slot, WriteSlot, MapArgs, LeafEntry, Present;
    if n == 0 {
      MapNone(mem, t, v, pa, perm);
    } else {
      MapFirst(mem, t, v, pa, n, perm);
      var w := LeafEntry(pa, perm);
      if Present(perm) {
        LeafValue(pa, perm);
      }
      var m := WriteSlot(mem, t, v, w);
      WriteSlotKeeps(mem, t, v, w);
      assert v * 4096 + 4096 == (v + 1) * 4096;
      MapRange(m, t, v + 1, pa + 4096, n - 1, perm);
    }
  }

  lemma MapNone(mem: Memory, t: Table, v: nat, pa: nat, perm: nat)
    requires MapArgs(v * 4096, pa, 0, perm)
    ensures perm < 4096 && MapPages(mem, t.l1, v * 4096, pa, 0, perm) == (mem, 0)
  {
  }

  lemma LeafValue(pa: nat, perm: nat)
    requires perm < 4096 && Present(perm) && pa % 4096 == 0 && pa < 0x20_0000
    ensures LeafEntry(pa, perm) == pa + perm
  {
  }

  lemma MapFirst(mem: Memory, t: Table, v: nat, pa: nat, n: nat, perm: nat)
    requires Wired(mem, t) && v < 1024 && n > 0 && MapArgs(v * 4096, pa, n, perm)
    ensures t.Distinct() && perm < 4096 && (Present(perm) ==> pa % 4096 == 0 && pa < 0x20_0000)
    ensures MapArgs(v * 4096 + 4096, pa + 4096, n - 1, perm)
    ensures MapPages(mem, t.l1, v * 4096, pa, n, perm)
         == MapPages(WriteSlot(mem, t, v, LeafEntry(pa, perm)), t.l1, v * 4096 + 4096, pa + 4096, n - 1, perm)
  {
    MapArgsNext(v * 4096, pa, n, perm);
    WiredUpper(mem, t, v * 4096);
    FullBits(t.lo);
    FullBits(t.hi);
    SlotIndex(v);
    hide E3, PageIndex, LeafEntry, MapArgs;
  }

  lemma SlotIndex(v: nat)
    requires v < 1024
    ensures PageIndex(v * 4096, 3) == (if v < 512 then v else v - 512)
  {
  }

  lemma KernelTableDistinct(lay: Layout)
    requires lay.Valid()
    ensures lay.KernelTable().Distinct()
  {
  }

  lemma BootArgs()
    ensures MapArgs(0, 0, 512, 7) && MapArgs(0, 0, 256, 3) && MapArgs(0xB8000, 0xB8000, 1, 7) && Present(7)
            && Present(3)
  {
  }

  lemma InitialTableMeaning(lay: Layout, mem: Memory)
    requires lay.Valid()
    ensures var m, t := InitialTable(lay, mem), lay.KernelTable();
            Wired(m, t) && forall v :: 0 <= v < 1024 ==> Slot(m, t, v) == if v < 512 then Full(v) else 0
  {
    hide MapPages, Wired, Slot, Wire, ClearFive, MapArgs;
    var t := lay.KernelTable();
    KernelTableDistinct(lay);
    BootArgs();
    WireWires(mem, t);
    MapRange(Wire(ClearFive(mem, t), t), t, 0, 0, 512, 7);
  }

  /** The kernel's table maps all of physical memory to itself, for user code only
      from PROC_START_ADDR on and at the console. */
  lemma BootTable(lay: Layout, mem: Memory)
    requires lay.Valid()
    ensures KernelTableOk(lay, BootMemory(lay, mem))
  {
    hide MapPages, Wired, Slot, MapArgs, InitialTable;
    var t := lay.KernelTable();
    InitialTableMeaning(lay, mem);
    BootArgs();
    var m1 := InitialTable(lay, mem);
    var m2 := MapPages(m1, t.l1, 0, 0, 256, 3).0;
    MapRange(m1, t, 0, 0, 256, 3);
    MapRange(m2, t, 0xB8, 0xB8000, 1, 7);
  }

  // ---------------------------------------------------------------- invariant

  function BootRoles(lay: Layout): (role: Roles)
    ensures forall x :: 0 <= x < 512 ==> role[x] == if IsSystem(lay, x) then System else Free
  {
    seq(512, x requires 0 <= x < 512 => if IsSystem(lay, x) then System else Free)
  }

  lemma BootPage(lay: Layout, k: VM, role: Roles, x: nat)
    requires x < 512 && k.info[x] == InitInfo(lay, x) && role[x] == if IsSystem(lay, x) then System else Free
    ensures PageOk(lay, k, map[], role, x) && ExactAt(k, map[], role, x) && OwnedAt(k, map[], role, x)
  {
  }

  lemma BootProcs(s: State)
    requires s.procs == NoProcesses() && s.current == 0
    ensures ProcsOk(s, map[])
  {
  }

  /** pageinfo_init, by physical address: what it withholds, and that all else is free. */
  lemma InitRecordsMeaning(lay: Layout, x: nat)
    requires lay.Valid() && x < 512
    ensures Withheld(lay, x, InitRecords(lay)[x])
    ensures !AtKernel(lay, x) && !AtReserved(x) ==> InitRecords(lay)[x] == PageInfo(0, 0)
  {
    WithheldRecord(lay, x);
  }

  /** With no process, the invariant holds at boot. */
  lemma BootGood(lay: Layout, mem: Memory)
    requires lay.Valid()
    ensures MInv(Checked, BootState(lay, mem), map[], BootRoles(lay))
  {
    hide BootMemory, KernelTableOk, Slot, IsSystem, InitRecords, NoProcesses, BootRoles, PageOk, ExactAt, OwnedAt,
         Shares, ProcsOk;
    var s, role := BootState(lay, mem), BootRoles(lay);
    BootTable(lay, mem);
    BootProcs(s);
    forall x | 0 <= x < 512
      ensures PageOk(lay, s.vm, map[], role, x) && ExactAt(s.vm, map[], role, x) && OwnedAt(s.vm, map[], role, x)
    {
      BootPage(lay, s.vm, role, x);
    }
  }

  /** The kernel's table is a proper source for duplicate_pagetable. */
  lemma KernelSource(lay: Layout, k: VM, tabs: TableMap, role: Roles)
    requires Inv(lay, k, tabs, role)
    ensures var t := lay.KernelTable();
            && Wired(k.mem, t) && FramesInstalled(k.mem, t) && InUse(k.info, t)
            && (forall v :: 0 <= v < 256 ==> Slot(k.mem, t, v) == LowEntry(v))
  {
    var t := lay.KernelTable();
    forall x | t.Has(x) ensures k.info[x].refcount != 0 {
      KernelPages(lay, k.mem, x);
      SystemRole(lay, k, tabs, role, x);
      assert PageOk(lay, k, tabs, role, x);
    }
    assert t.Has(t.l1) && t.Has(t.l2) && t.Has(t.l3) && t.Has(t.lo) && t.Has(t.hi);
    hide Slot, Wired, PagesOk, SpacesOk, SlotsOk;
    forall v | 0 <= v < 1024 ensures Present(Slot(k.mem, t, v)) ==> Frame(Slot(k.mem, t, v)) < 512 {
      if v < 512 {
        LowForm(v);
        EntryForms(v);
      }
    }
  }

  /** First half of process_setup: a table with an empty user range. */
  lemma SetupTable(lay: Layout, k: VM, tabs: TableMap, role: Roles, pid: nat) returns (k1: VM, t: Table, role1: Roles)
    requires Inv(lay, k, tabs, role) && Exact(k, tabs, role) && Owned(k, tabs, role) && 1 <= pid < 16 && pid !in tabs
    requires |FreePages(k.info)| >= 5
    ensures DuplicatePagetable(k, lay.tables, pid) == Ok((k1, t.l1)) && t.l1 != 0
    ensures |FreePages(k1.info)| == |FreePages(k.info)| - 5
    ensures Inv(lay, k1, tabs[pid := t], role1) && Exact(k1, tabs[pid := t], role1) && Owned(k1, tabs[pid := t], role1)
    ensures forall u :: 256 <= u < 1024 ==> Slot(k1.mem, t, u) == 0
    ensures OthersPages(k.info, k.mem, k1.mem, pid) && InUseRecords(k.info, k1.info)
  {
    hide OthersPages, InUseRecords, Inv, Exact, Owned, DuplicatePagetable, FreePages, Duplicated, Slot, Wired,
         FramesInstalled, InUse,
         RolesWithTable, SlotsSame, AllocFive;
    KernelSource(lay, k, tabs, role);
    k1, t := DuplicateForm(k, lay.KernelTable(), pid);
    DuplicatedTable(k, k1, lay.KernelTable(), t, pid);
    JoinSpace(lay, k, k1, tabs, role, lay.KernelTable(), t, pid);
    FreeAfterDuplicate(k, k1, lay.KernelTable(), t, pid);
    DuplicatedOthers(k, k1, lay.KernelTable(), t, pid);
    role1 := RolesWithTable(role, t, pid);
  }

  lemma DuplicatedOthers(k: VM, k': VM, s: Table, t: Table, pid: int)
    requires Duplicated(k, k', s, t, pid)
    ensures OthersPages(k.info, k.mem, k'.mem, pid) && InUseRecords(k.info, k'.info)
  {
    hide Slot, Wired;
  }

  /** Second half: the program and a stack page. */
  lemma SetupImage(lay: Layout, k: VM, tabs: TableMap, role: Roles, pid: nat, segs: seq<Segment>)
    returns (k2: VM, r: int, k3: VM, role': Roles)
    requires Inv(lay, k, tabs, role) && Exact(k, tabs, role) && Owned(k, tabs, role) && pid in tabs
    requires GoodProgram(segs, MEMSIZE_VIRTUAL - 4096) && forall x :: x in segs ==> x.Readable()
    requires forall u :: 256 <= u < 1024 ==> Slot(k.mem, tabs[pid], u) == 0
    ensures LoadProgram(lay, k, tabs[pid].l1, pid, segs) == Ok((k2, r)) && r in {0, -1}
    ensures r == 0 ==>
              AllocAt(k2, tabs[pid].l1, pid, MEMSIZE_VIRTUAL - 4096).Ok?
                && AllocAt(k2, tabs[pid].l1, pid, MEMSIZE_VIRTUAL - 4096).value.0 == k3
    ensures r == 0 ==>
              Inv(lay, k3, tabs, role') && Exact(k3, tabs, role') && Owned(k3, tabs, role')
                && ProgramLoaded(k3.mem, tabs[pid], segs)
    ensures TakesExactly(k.info, k2.info, ProgramPages(segs), r)
    ensures r == 0 ==> |FreePages(k3.info)| >= |FreePages(k2.info)| - 1 && OnlyProgram(k3.mem, tabs[pid], segs)
    ensures r == 0 ==> HasStack(k2.info, k3.mem, tabs[pid]) && OthersPages(k.info, k.mem, k3.mem, pid)
  {
    hide Inv, Exact, Owned, ProgramLoaded, GoodProgram, LoadProgram, AllocAt, RoomForAll, SameOutside, Untouched,
         Slot, GoodRequest, MappedFresh, TakesExactly, FreePages, OnlyProgram, ProgramPages, OthersPages,
         InUseRecords, HasStack;
    var t := tabs[pid];
    EmptyRoom(k.mem, t, segs);
    k2, r, role' := LoadProgramMeaning(lay, k, tabs, role, pid, segs, MEMSIZE_VIRTUAL - 4096);
    LoadResult(lay, k, t.l1, pid, segs);
    k3 := k2;
    if r == 0 {
      StackRequest(k.mem, k2.mem, t, segs);
      var role2 := role';
      role' := PageAllocKeeps(lay, k2, tabs, role2, pid, MEMSIZE_VIRTUAL - 4096);
      k3 := AllocAt(k2, t.l1, pid, MEMSIZE_VIRTUAL - 4096).value.0;
      StackKeepsProgram(lay, k2, k3, tabs, role2, pid, segs);
      StackPage(k.mem, k2, k3, t, segs);
      OthersTrans(k.info, k2.info, k.mem, k2.mem, k3.mem, pid);
    }
  }

  /** The user range holds the program and possibly a stack page. */
  ghost predicate OnlyProgram(mem: Memory, t: Table, segs: seq<Segment>) {
    && (forall u :: 256 <= u < 1024 && u != 767 && NoSegmentOn(segs, u) ==> Slot(mem, t, u) == 0)
    && (NoSegmentOn(segs, 767) ==> Slot(mem, t, 767) == 0 || Writable(Slot(mem, t, 767)))
  }

  lemma StackPage(mem: Memory, k: VM, k': VM, t: Table, segs: seq<Segment>)
    requires SameOutside(mem, k.mem, t, segs) && StackAdded(k, k', t)
    requires forall u :: 256 <= u < 1024 ==> Slot(mem, t, u) == 0
    ensures OnlyProgram(k'.mem, t, segs) && |FreePages(k'.info)| >= |FreePages(k.info)| - 1
    ensures HasStack(k.info, k'.mem, t)
  {
    hide Slot, OnPage, NoSegmentOn, FreePages, SameBut, HasStack;
    var f :| SameBut(k.info, k'.info, f);
    FreeBut(k.info, k'.info, f);
  }

  lemma FreeBut(i: Info, j: Info, f: int)
    requires SameBut(i, j, f)
    ensures |FreePages(j)| >= |FreePages(i)| - 1
  {
    var a, b := FreePages(i), FreePages(j);
    forall x | x in a && x != f ensures x in b {
    }
    hide FreePages, SameBut;
    AllButOne(a, b, f);
  }

  lemma AllButOne(a: set<nat>, b: set<nat>, f: int)
    requires forall x :: x in a && x != f ==> x in b
    ensures |b| >= |a| - 1
  {
    if f in a {
      SubsetCard(a - {f}, b);
    } else {
      SubsetCard(a, b);
    }
  }

  ghost predicate SameBut(i: Info, j: Info, f: int) {
    forall x :: 0 <= x < 512 && x != f ==> j[x] == i[x]
  }

  /** At most one record and the slot of the stack page changed. */
  ghost predicate StackAdded(k: VM, k': VM, t: Table) {
    && (exists f :: SameBut(k.info, k'.info, f))
    && (forall u :: 0 <= u < 1024 && u != 767 ==> Slot(k'.mem, t, u) == Slot(k.mem, t, u))
    && (Slot(k'.mem, t, 767) == Slot(k.mem, t, 767) || Writable(Slot(k'.mem, t, 767)))
    && HasStack(k.info, k'.mem, t)
  }

  /** If a page is free, the last user page gets one. */
  ghost predicate HasStack(info: Info, mem: Memory, t: Table) {
    if FreePages(info) == {} then Slot(mem, t, 767) == 0
    else exists g :: 0 < g < 512 && info[g].refcount == 0 && Slot(mem, t, 767) == Full(g)
  }

  /** process_setup in terms of its parts, once the table is there. */
  lemma SetupForm(s: State, pid: nat, segs: seq<Segment>, regs: Registers, k1: VM, root: nat, k2: VM, r: int)
    requires pid < 16 && (forall x :: x in segs ==> x.Readable())
    requires DuplicatePagetable(s.vm, s.lay.tables, pid) == Ok((k1, root)) && root != 0
    requires LoadProgram(s.lay, k1, root, pid, segs) == Ok((k2, r))
             && (r >= 0 ==> AllocAt(k2, root, pid, MEMSIZE_VIRTUAL - 4096).Ok?)
    ensures ProcessSetup(s, pid, segs, regs)
         == if r < 0 then Panic
            else Ok(s.(vm := AllocAt(k2, root, pid, MEMSIZE_VIRTUAL - 4096).value.0,
              procs := s.procs[pid := Proc(regs, P_RUNNABLE, root)]))
  {
    hide DuplicatePagetable, LoadProgram, AllocAt;
  }

  lemma SetupWithoutTable(s: State, pid: nat, segs: seq<Segment>, regs: Registers)
    requires pid < 16 && (forall x :: x in segs ==> x.Readable())
    requires var d := DuplicatePagetable(s.vm, s.lay.tables, pid); d.Ok? ==> d.value.1 == 0
    ensures ProcessSetup(s, pid, segs, regs).Panic?
  {
    hide DuplicatePagetable, LoadProgram, AllocAt;
  }

  /** process_setup succeeds exactly when there are pages for the table and the
      program; it does not notice a missing stack page. */
  lemma SetupSucceedsIff(s: State, tabs: TableMap, role: Roles, pid: nat, segs: seq<Segment>, regs: Registers)
    requires MInv(Checked, s, tabs, role) && 1 <= pid < 16 && !Live(s, pid)
    requires GoodProgram(segs, MEMSIZE_VIRTUAL - 4096) && forall x :: x in segs ==> x.Readable()
    ensures ProcessSetup(s, pid, segs, regs).Ok? <==> |FreePages(s.vm.info)| >= 5 + ProgramPages(segs)
  {
    assert pid !in tabs;
    hide Inv, Exact, Owned, ProgramLoaded, GoodProgram, DuplicatePagetable, LoadProgram, AllocAt, ProcsOk, Slot,
         FreePages, ProgramPages, OnlyProgram, ProcessSetup;
    if |FreePages(s.vm.info)| >= 5 {
      var k1, t, role1 := SetupTable(s.lay, s.vm, tabs, role, pid);
      var k2, r, k3, role2 := SetupImage(s.lay, k1, tabs[pid := t], role1, pid, segs);
      SetupForm(s, pid, segs, regs, k1, t.l1, k2, r);
    } else if DuplicatePagetable(s.vm, s.lay.tables, pid).Ok?
      && DuplicatePagetable(s.vm, s.lay.tables, pid).value.1 != 0 {
      FiveFree(s.vm, s.lay.tables, pid);
    } else {
      SetupWithoutTable(s, pid, segs, regs);
    }
  }

  /** A successful process_setup adds a live process and keeps everything. */
  lemma SetupKeeps(s: State, tabs: TableMap, role: Roles, pid: nat, segs: seq<Segment>, regs: Registers)
    returns (s': State, tabs': TableMap, role': Roles)
    requires MInv(Checked, s, tabs, role) && 1 <= pid < 16 && !Live(s, pid)
    requires GoodProgram(segs, MEMSIZE_VIRTUAL - 4096) && forall x :: x in segs ==> x.Readable()
    requires ProcessSetup(s, pid, segs, regs).Ok?
    ensures ProcessSetup(s, pid, segs, regs) == Ok(s') && MInv(Checked, s', tabs', role')
    ensures pid in tabs' && ProgramLoaded(s'.vm.mem, tabs'[pid], segs)
    ensures forall q :: 0 <= q < 16 && q != pid ==> s'.procs[q] == s.procs[q]
    ensures s'.procs[pid].state == P_RUNNABLE && s'.procs[pid].regs == regs && s'.lay == s.lay
    ensures OnlyProgram(s'.vm.mem, tabs'[pid], segs)
    ensures Slot(s'.vm.mem, tabs'[pid], 767) != 0 <==> |FreePages(s.vm.info)| >= 6 + ProgramPages(segs)
    ensures tabs' == tabs[pid := tabs'[pid]] && OthersPages(s.vm.info, s.vm.mem, s'.vm.mem, pid)
    ensures |FreePages(s'.vm.info)| >= |FreePages(s.vm.info)| - 6 - ProgramPages(segs)
  {
    hide Inv, Exact, Owned, ProgramLoaded, GoodProgram, DuplicatePagetable, LoadProgram, AllocAt, ProcsOk, Slot,
         FreePages, ProgramPages, OnlyProgram, ProcessSetup, Live, OthersPages, InUseRecords, HasStack;
    DeadHasNoTable(s, tabs, pid);
    SetupSucceedsIff(s, tabs, role, pid, segs, regs);
    var k1, t, role1 := SetupTable(s.lay, s.vm, tabs, role, pid);
    tabs' := tabs[pid := t];
    var k2, r, k3;
    k2, r, k3, role' := SetupImage(s.lay, k1, tabs', role1, pid, segs);
    SetupForm(s, pid, segs, regs, k1, t.l1, k2, r);
    StackIff(k2.info, k3.mem, t);
    OthersTrans(s.vm.info, k1.info, s.vm.mem, k1.mem, k3.mem, pid);
    s' := ProcessSetup(s, pid, segs, regs).value;
    SetupProcs(s, s', tabs, pid, t, regs);
  }

  /** Pages behind the user range of `q` are on record to live processes. */
  lemma LiveOwner(lay: Layout, k: VM, tabs: TableMap, role: Roles, q: int, pid: int, u: nat)
    requires Inv(lay, k, tabs, role) && Owned(k, tabs, role) && q in tabs && pid !in tabs
    requires 256 <= u < 768 && Slot(k.mem, tabs[q], u) != 0
    ensures var f := Frame(Slot(k.mem, tabs[q], u)); f < 512 && k.info[f].refcount != 0 && k.info[f].owner != pid
  {
    assert SlotOk(k.mem, tabs[q], role, q, u);
    var f := Frame(Slot(k.mem, tabs[q], u));
    assert PageOk(lay, k, tabs, role, f) && OwnedAt(k, tabs, role, f);
    hide Slot, Wired, KernelTableOk;
  }

  /** Setting up process `pid` leaves the programs of the others loaded. */
  lemma OtherProgram(lay: Layout, k: VM, m: Memory, tabs: TableMap, role: Roles, q: int, pid: int, segs: seq<Segment>)
    requires Inv(lay, k, tabs, role) && Owned(k, tabs, role) && q in tabs && pid !in tabs
    requires OthersPages(k.info, k.mem, m, pid) && ProgramLoaded(k.mem, tabs[q], segs)
    ensures ProgramLoaded(m, tabs[q], segs)
  {
    hide Inv, Owned, SegmentLoaded, Slot;
    var t := tabs[q];
    OtherSlots(lay, k, m, tabs, role, q, pid);
    forall c | MappedByte(k.mem, t, c)
      ensures MappedByte(m, t, c) && ByteAt(m, t, c) == ByteAt(k.mem, t, c)
              && Slot(m, t, c / 4096) == Slot(k.mem, t, c / 4096)
    {
      LiveOwner(lay, k, tabs, role, q, pid, c / 4096);
    }
    forall i | 0 <= i < |segs| ensures SegmentLoaded(m, t, segs[i]) {
      StillLoaded(k.mem, m, t, segs[i]);
    }
  }

  lemma OtherSlots(lay: Layout, k: VM, m: Memory, tabs: TableMap, role: Roles, q: int, pid: int)
    requires Inv(lay, k, tabs, role) && q in tabs && pid !in tabs && OthersPages(k.info, k.mem, m, pid)
    ensures forall u :: 0 <= u < 1024 ==> Slot(m, tabs[q], u) == Slot(k.mem, tabs[q], u)
  {
    var t := tabs[q];
    TableInUse(lay, k, tabs, role, q);
    hide Inv;
    assert t.Has(t.lo) && t.Has(t.hi);
  }

  lemma StackIff(info: Info, mem: Memory, t: Table)
    requires HasStack(info, mem, t)
    ensures Slot(mem, t, 767) != 0 <==> |FreePages(info)| >= 1
  {
    hide Slot, FreePages, Full;
    if FreePages(info) != {} {
      var g :| 0 < g < 512 && info[g].refcount == 0 && Slot(mem, t, 767) == Full(g);
      FullEntry(g);
    }
  }

  lemma EmptyRoom(mem: Memory, t: Table, segs: seq<Segment>)
    requires forall u :: 256 <= u < 1024 ==> Slot(mem, t, u) == 0
    ensures RoomForAll(mem, t, segs)
  {
  }

  lemma {:induction false} LoadResult(lay: Layout, k: VM, root: nat, pid: int, segs: seq<Segment>)
    requires (forall x :: x in segs ==> x.Readable()) && LoadProgram(lay, k, root, pid, segs).Ok?
    ensures LoadProgram(lay, k, root, pid, segs).value.1 in {0, -1}
    decreases |segs|
  {
    hide LoadSegment;
    if segs != [] && LoadSegment(lay, k, root, pid, segs[0]).Ok? {
      NoError(lay, k, root, pid, segs[0]);
      var (k1, r) := LoadSegment(lay, k, root, pid, segs[0]).value;
      if r >= 0 {
        LoadResult(lay, k1, root, pid, segs[1..]);
      }
    }
  }

  lemma StackRequest(mem: Memory, m: Memory, t: Table, segs: seq<Segment>)
    requires GoodProgram(segs, MEMSIZE_VIRTUAL - 4096) && SameOutside(mem, m, t, segs)
    requires forall u :: 256 <= u < 1024 ==> Slot(mem, t, u) == 0
    ensures GoodRequest(m, t, MEMSIZE_VIRTUAL - 4096)
  {
    forall i | 0 <= i < |segs| ensures !OnPage(segs[i], 767) {
      assert GoodSegment(segs[i], MEMSIZE_VIRTUAL - 4096);
    }
    assert NoSegmentOn(segs, 767);
    hide Slot;
  }

  /** The stack page does not disturb the program. */
  lemma StackKeepsProgram(lay: Layout, k: VM, k': VM, tabs: TableMap, role: Roles, p: int, segs: seq<Segment>)
    requires Inv(lay, k, tabs, role) && p in tabs && ProgramLoaded(k.mem, tabs[p], segs)
    requires GoodRequest(k.mem, tabs[p], MEMSIZE_VIRTUAL - 4096)
    requires AllocAt(k, tabs[p].l1, p, MEMSIZE_VIRTUAL - 4096).Ok?
             && k' == AllocAt(k, tabs[p].l1, p, MEMSIZE_VIRTUAL - 4096).value.0
    ensures ProgramLoaded(k'.mem, tabs[p], segs) && StackAdded(k, k', tabs[p])
    ensures OthersPages(k.info, k.mem, k'.mem, p)
  {
    hide OthersPages, StackAdded, Inv, Slot, AllocAt, Wired, FindFree, SegmentLoaded, Untouched, GoodRequest, WriteSlot;
    var t, f := tabs[p], FindFree(k.info, 1);
    RequestUnmapped(k.mem, t, MEMSIZE_VIRTUAL - 4096);
    if f == 512 {
      NoStack(k, k', t, p);
      OthersSelf(k.info, k.mem, p);
    } else {
      LiveWired(lay, k, tabs, role, p);
      StackForm(k, k', t, p, f);
      OwnTable(lay, k, k'.mem, tabs, role, p);
      WriteUntouched(lay, k, k'.mem, tabs, role, p, Full(f));
      forall i | 0 <= i < |segs| ensures SegmentLoaded(k'.mem, t, segs[i]) {
        StillLoaded(k.mem, k'.mem, t, segs[i]);
      }
    }
  }

  lemma RequestUnmapped(mem: Memory, t: Table, addr: Va)
    requires GoodRequest(mem, t, addr)
    ensures addr / 4096 < 1024 && Slot(mem, t, addr / 4096) == 0
  {
  }

  lemma NoStack(k: VM, k': VM, t: Table, p: int)
    requires FindFree(k.info, 1) == 512 && Slot(k.mem, t, 767) == 0
    requires AllocAt(k, t.l1, p, MEMSIZE_VIRTUAL - 4096).Ok?
             && k' == AllocAt(k, t.l1, p, MEMSIZE_VIRTUAL - 4096).value.0
    ensures k' == k && StackAdded(k, k', t)
  {
    AllocTakes(k.info, p);
    assert SameBut(k.info, k'.info, 0);
  }

  lemma StackForm(k: VM, k': VM, t: Table, p: int, f: nat)
    requires Wired(k.mem, t) && GoodRequest(k.mem, t, MEMSIZE_VIRTUAL - 4096) && f == FindFree(k.info, 1) < 512
    requires AllocAt(k, t.l1, p, MEMSIZE_VIRTUAL - 4096).Ok?
             && k' == AllocAt(k, t.l1, p, MEMSIZE_VIRTUAL - 4096).value.0
    ensures StackAdded(k, k', t) && Slot(k.mem, t, 767) == 0
    ensures forall u :: 0 <= u < 1024 ==> Slot(k'.mem, t, u) == if u == 767 then Full(f) else Slot(k.mem, t, u)
    ensures forall x :: 0 <= x < 512 && x != t.lo && x != t.hi ==> k'.mem[x] == k.mem[x]
  {
    hide Full, ReadOnly, Frame, PteFlags, Present, Writable, UserOk;
    hide AllocAt, Wired, FindFree, WriteSlot, Slot;
    PageAllocForm(k, t, p, MEMSIZE_VIRTUAL - 4096, f, k.info[f := PageInfo(p, 1)]);
    WriteSlotKeeps(k.mem, t, 767, Full(f));
    EntryForms(f);
    FoundFree(k.info, p);
    assert SameBut(k.info, k'.info, f);
  }

  lemma FoundFree(info: Info, p: int)
    requires FindFree(info, 1) < 512
    ensures FreePages(info) != {} && 0 < FindFree(info, 1) && info[FindFree(info, 1)].refcount == 0
  {
    AllocTakes(info, p);
  }

  lemma WriteUntouched(lay: Layout, k: VM, m: Memory, tabs: TableMap, role: Roles, p: int, w: Word)
    requires Inv(lay, k, tabs, role) && p in tabs && Slot(k.mem, tabs[p], 767) == 0
    requires forall u :: 0 <= u < 1024 ==> Slot(m, tabs[p], u) == if u == 767 then w else Slot(k.mem, tabs[p], u)
    requires forall x :: 0 <= x < 512 && x != tabs[p].lo && x != tabs[p].hi ==> m[x] == k.mem[x]
    ensures Untouched(k.mem, m, tabs[p])
  {
    var t := tabs[p];
    hide Inv, Slot;
    forall c | MappedByte(k.mem, t, c)
      ensures MappedByte(m, t, c) && ByteAt(m, t, c) == ByteAt(k.mem, t, c)
              && Slot(m, t, c / 4096) == Slot(k.mem, t, c / 4096)
    {
      MappedInUse(lay, k, tabs, role, p, c / 4096);
    }
  }

  lemma DeadHasNoTable(s: State, tabs: TableMap, pid: nat)
    requires ProcsOk(s, tabs) && !Live(s, pid)
    ensures pid !in tabs
  {
  }

  lemma SetupProcs(s: State, s': State, tabs: TableMap, pid: nat, t: Table, regs: Registers)
    requires ProcsOk(s, tabs) && 1 <= pid < 16 && s'.current == s.current
    requires s'.procs == s.procs[pid := Proc(regs, P_RUNNABLE, t.l1)]
    ensures ProcsOk(s', tabs[pid := t])
  {
    forall q ensures q in tabs[pid := t] <==> Live(s', q) {
      assert q != pid ==> (Live(s', q) <==> Live(s, q));
    }
  }
}
