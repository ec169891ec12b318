/** Start-up on the kernel's arrays: `virtual_memory_init`, `pageinfo_init`, the
    mappings of `kernel`, and `process_setup`. */
module BootMachine {
  import opened X86
  import opened Paging
  import opened Tables
  import opened Spaces
  import opened Duplicate
  import opened Forks
  import opened Activation
  import opened Kernel
  import opened Machine
  import opened Loader
  import opened LoadProperties
  import opened LoaderMachine
  import opened Boot

  /** virtual_memory_init (vm.c:22-52). `ok` says that its identity check and the
      asserts of set_pagetable pass. */
  method VirtualMemoryInit(km: KernelMachine) returns (ok: bool)
    requires km.Shape()
    modifies km.mem
    ensures km.mem[..] == InitialTable(km.lay, old(km.mem[..])) && ok
  {
    hide MapPages, MapArgs, Wired, WellFormed, Lookup, Slot, WalkInstalled;
    var l1 := km.lay.tables;
    var l2, l3, lo, hi := l1 + 1, l1 + 2, l1 + 3, l1 + 4;
    ghost var m: Memory, t := km.mem[..], km.lay.KernelTable();
    KernelTableDistinct(km.lay);
    WireWires(m, t);
    BootArgs();
    km.ClearPages(l1, l2, l3, lo, hi);
    km.WirePages(l1, l2, l3, lo, hi);
    hide Wire, ClearFive;
    WiredWellFormed(km.mem[..], t);
    var _ := VirtualMemoryMap(km.mem, l1, 0, 0, MEMSIZE_PHYSICAL, 7);
    InitialTableMeaning(km.lay, m);
    hide InitialTable;
    ok := CheckIdentity(km, t);
    if ok {
      FullTable(km.mem[..], t, 512);
      FullTable(km.mem[..], t, 256);
      hide Identity, SetPagetableOk;
      SetPagetableHolds(km.lay, km.mem[..], t);
      WiredWellFormed(km.mem[..], t);
      ok := km.SetPagetable(l1);
    }
  }

  lemma FullTable(mem: Memory, t: Table, n: nat)
    requires Wired(mem, t) && n <= 512 && forall v :: 0 <= v < n ==> Slot(mem, t, v) == Full(v)
    ensures Identity(mem, t, n)
  {
    hide Full, ReadOnly, Frame, PteFlags, Present, Writable, UserOk;
    hide Wired, Slot;
    forall v | 0 <= v < n ensures Present(Slot(mem, t, v)) && Frame(Slot(mem, t, v)) == v {
      EntryForms(v);
    }
  }

  /** The loop of vm.c:39-46. */
  method CheckIdentity(km: KernelMachine, ghost t: Table) returns (ok: bool)
    requires km.Shape() && Wired(km.mem[..], t) && t.l1 == km.lay.tables
    requires forall v :: 0 <= v < 512 ==> Slot(km.mem[..], t, v) == Full(v)
    ensures ok
  {
    hide Wired, WellFormed, Lookup, Slot, WalkInstalled;
    WiredWellFormed(km.mem[..], t);
    var addr := 0;
    while addr < MEMSIZE_PHYSICAL
      invariant 0 <= addr <= MEMSIZE_PHYSICAL && addr % 4096 == 0
    {
      WalkIsInstalled(km.mem[..], km.lay.tables, addr);
      var vmap := VirtualMemoryLookup(km.mem, km.lay.tables, addr);
      FullIdentity(km.mem[..], t, addr / 4096);
      if vmap.pa != addr || !Present(vmap.perm) || !Writable(vmap.perm) {
        return false;
      }
      addr := addr + 4096;
    }
    return true;
  }

  lemma FullIdentity(mem: Memory, t: Table, v: nat)
    requires Wired(mem, t) && v < 512 && Slot(mem, t, v) == Full(v)
    ensures Lookup(mem, t.l1, v * 4096) == VaMapping(v, v * 4096, 7) && Present(7) && Writable(7)
  {
    hide Wired, Lookup, Slot, Full, ReadOnly, Decode, Present, Writable, UserOk, Frame, PteFlags;
    UserLookup(mem, t, v);
    DecodeForms(v);
    SevenBits();
  }

  lemma SevenBits()
    ensures Present(7) && Writable(7)
  {
  }

  /** pageinfo_init (kernel.c:489-506). */
  method PageinfoInit(km: KernelMachine)
    requires km.Shape()
    modifies km.pageinfo
    ensures km.pageinfo[..] == InitRecords(km.lay)
  {
    var addr := 0;
    while addr < MEMSIZE_PHYSICAL
      invariant 0 <= addr <= MEMSIZE_PHYSICAL && addr % 4096 == 0
      invariant forall x :: 0 <= x < addr / 4096 ==> km.pageinfo[x] == InitInfo(km.lay, x)
    {
      var owner := 0;
      var pn := addr / 4096;
      if IsReserved(pn) {
        owner := PO_RESERVED;
      } else if (addr >= 0x40000 && addr < km.lay.end) || addr == 0x80000 - 4096 {
        owner := PO_KERNEL;
      }
      km.pageinfo[pn] := PageInfo(owner, if owner != 0 then 1 else 0);
      addr := addr + 4096;
    }
  }

  /** The table and records `kernel` sets up before it starts a process
      (kernel.c:87-93). */
  method KernelStart(km: KernelMachine) returns (ok: bool)
    requires km.Shape()
    modifies km.mem, km.pageinfo
    ensures ok && km.Vm() == VM(BootMemory(km.lay, old(km.mem[..])), InitRecords(km.lay))
  {
    hide MapPages, MapArgs, Wired, WellFormed, Slot, InitialTable, InitRecords;
    ghost var m: Memory, t := km.mem[..], km.lay.KernelTable();
    ok := VirtualMemoryInit(km);
    PageinfoInit(km);
    InitialTableMeaning(km.lay, m);
    BootArgs();
    WiredWellFormed(km.mem[..], t);
    MapRange(km.mem[..], t, 0, 0, 256, 3);
    var _ := VirtualMemoryMap(km.mem, km.lay.tables, 0, 0, PROC_START_ADDR, 3);
    WiredWellFormed(km.mem[..], t);
    var _ := VirtualMemoryMap(km.mem, km.lay.tables, 0xB8000, 0xB8000, 4096, 7);
  }

  /** process_setup (kernel.c:128-139); `ok` is false when one of its asserts fails. */
  method ProcessSetup(km: KernelMachine, pid: nat, segs: seq<Segment>, regs: Registers, ghost tabs: TableMap,
                      ghost role: Roles)
    returns (ok: bool)
    requires km.Shape() && MInv(Checked, km.Value(), tabs, role) && 1 <= pid < 16 && pid !in tabs
    requires GoodProgram(segs, MEMSIZE_VIRTUAL - 4096) && forall x :: x in segs ==> x.Readable()
    modifies km.mem, km.pageinfo, km.processes
    ensures if ok then Boot.ProcessSetup(old(km.Value()), pid, segs, regs) == Ok(km.Value())
            else Boot.ProcessSetup(old(km.Value()), pid, segs, regs).Panic?
  {
    hide Inv, Exact, Owned, ProcsOk, Slot, Wired, WellFormed, FramesInstalled, InUse, Duplicate.DuplicatePagetable,
         FreePages, GoodProgram, RoomForAll, LoadProgram, AllocAt, ProgramLoaded, OnlyProgram, Untouched, SameOutside,
         TakesExactly, Segment.Readable;
    ghost var s0, k := km.Value(), km.Vm();
    KernelSource(km.lay, k, tabs, role);
    var root := km.DuplicatePagetable(km.lay.tables, km.lay.KernelTable(), pid);
    if root == 0 {
      return false;
    }
    FiveFree(k, km.lay.tables, pid);
    ghost var k1, t, role1 := SetupTable(km.lay, k, tabs, role, pid);
    assert km.Vm() == k1;
    EmptyRoom(k1.mem, t, segs);
    WiderLimit(segs);
    ghost var k2, r2, role2 := LoadProgramMeaning(km.lay, k1, tabs[pid := t], role1, pid, segs, MEMSIZE_VIRTUAL);
    var r := ProgramLoad(km, root, pid, segs, tabs[pid := t], role1);
    assert km.Vm() == k2;
    if r < 0 {
      return false;
    }
    LiveWired(km.lay, k2, tabs[pid := t], role2, pid);
    WiredWellFormed(k2.mem, t);
    var placed, _ := km.SysPageAllocFindFree(root, pid, MEMSIZE_VIRTUAL - 4096);
    if !placed {
      return false;
    }
    km.processes[pid] := Proc(regs, P_RUNNABLE, root);
    assert km.processes[..] == s0.procs[pid := Proc(regs, P_RUNNABLE, root)];
    return true;
  }

  lemma WiderLimit(segs: seq<Segment>)
    requires GoodProgram(segs, MEMSIZE_VIRTUAL - 4096)
    ensures GoodProgram(segs, MEMSIZE_VIRTUAL)
  {
    forall i | 0 <= i < |segs| ensures GoodSegment(segs[i], MEMSIZE_VIRTUAL) {
      assert GoodSegment(segs[i], MEMSIZE_VIRTUAL - 4096);
    }
  }
}
