/** No step of one process, user store or system call, disturbs another. */
module Noninterference {
  import opened X86
  import opened Paging
  import opened Tables
  import opened Spaces
  import opened Alloc
  import opened Duplicate
  import opened Forks
  import opened Exits
  import opened Kernel
  import opened Steps
  import opened Properties
  import opened ForkProperties
  import opened SelfCheck

  /** Pages in use keep their content, those of process `p`'s own table excepted. */
  ghost predicate InUseSame(k: VM, m: Memory, t: Table) {
    forall x :: 0 <= x < 512 && k.info[x].refcount != 0 && !t.Has(x) ==> m[x] == k.mem[x]
  }

  lemma PageAllocMemory(s: State, s': State, tabs: TableMap, role: Roles, addr: Va)
    requires KInv(s, tabs, role) && Live(s, s.current) && SysPageAlloc(s, addr) == Ok(s')
    requires addr % 4096 == 0 || addr < PROC_START_ADDR
    ensures s.current in tabs && InUseSame(s.vm, s'.vm.mem, tabs[s.current])
  {
    var p := s.current;
    assert p in tabs && s.procs[p].pagetable == tabs[p].l1;
    hide Inv, ProcsOk, Wired, WriteSlot, AllocAt;
    var f := FindFree(s.vm.info, 1);
    if f == 512 {
      AllocNothing(s.vm, tabs[p].l1, p, addr);
    } else {
      hide FindFree;
      LiveWired(s.lay, s.vm, tabs, role, p);
      PageAllocForm(s.vm, tabs[p], p, addr, f, s.vm.info[f := PageInfo(p, 1)]);
      if PROC_START_ADDR <= addr < 0x40_0000 {
        WriteSlotPages(s.vm.mem, tabs[p], addr / 4096, Full(f));
      }
    }
  }

  lemma AllocNothing(k: VM, root: nat, pid: int, addr: Va)
    requires FindFree(k.info, 1) == 512
    ensures AllocAt(k, root, pid, addr) == Ok((k, -1))
  {
  }

  lemma ForkMemory(s: State, s': State, tabs: TableMap, role: Roles)
    requires KInv(s, tabs, role) && Live(s, s.current) && SysFork(s) == Ok(s')
    requires FreeSlot(s.procs, 1) < 16 ==> ForkGuard(s.vm, TablesOf(s, s.current))
    ensures s.current in tabs && InUseSame(s.vm, s'.vm.mem, tabs[s.current])
    ensures forall q :: 0 <= q < 16 && Live(s, q) && q != s.current ==> s'.procs[q] == s.procs[q]
  {
    var p, c := s.current, FreeSlot(s.procs, 1);
    assert p in tabs;
    if c == 16 {
      NoSlot(s);
    } else {
      hide KInv, ForkGuard, TablesOf, SysFork, ForkEffect, FreeSlot, RolesWithTable, FreePages, ToCopy;
      var s1, tc, role', k1, role1 := ForkResult(s, tabs, role);
      forall x | 0 <= x < 512 && s.vm.info[x].refcount != 0 ensures s'.vm.mem[x] == s.vm.mem[x] {
        InUseKept(s.lay, s.vm, k1, s'.vm, tabs, role1, role', p, c, tc, x);
      }
      NotLive(s);
    }
  }

  lemma NotLive(s: State)
    ensures !Live(s, FreeSlot(s.procs, 1))
  {
  }

  /** The handler of one trap: pages in use keep their content, and the other
      processes their descriptors. */
  lemma HandleConfined(m: Mode, s: State, s': State, tabs: TableMap, role: Roles, call: Call)
    requires MInv(m, s, tabs, role) && Live(s, s.current) && Allowed(m, s, Trap(s.procs[s.current].regs, call))
             && Handle(s, call) == Ok(s')
    ensures s.current in tabs && InUseSame(s.vm, s'.vm.mem, tabs[s.current])
    ensures forall q :: 0 <= q < 16 && Live(s, q) && q != s.current ==> s'.procs[q] == s.procs[q]
  {
    TableOfCurrent(s, tabs, role);
    hide Inv, Exact, Owned, SysFork, TableAt, HasMemory, RoomToShare, FreeSlot, ExitSpace, AllocAt;
    match call {
      case Fork =>
        if FreeSlot(s.procs, 1) < 16 {
          GuardHolds(m, s, tabs, role);
        }
        ForkMemory(s, s', tabs, role);
      case PageAlloc(addr) =>
        PageAllocMemory(s, s', tabs, role, addr);
      case Exit =>
        ExitMemory(s.vm, s.procs[s.current].pagetable, s.current);
      case _ =>
    }
  }

  lemma ExitMemory(k: VM, root: nat, pid: int)
    ensures ExitSpace(k, root, pid).mem == k.mem
  {
  }

  /** A process all of whose pages kept their content sees no difference. */
  lemma PagesKeptUndisturbed(s: State, s': State, tabs: TableMap, role: Roles, q: nat)
    requires KInv(s, tabs, role) && q < 16 && Live(s, q) && Live(s, s.current) && q != s.current
    requires s.current in tabs && InUseSame(s.vm, s'.vm.mem, tabs[s.current])
    requires s'.procs[q] == s.procs[q]
    ensures Undisturbed(s, s', q)
  {
    var p, t := s.current, tabs[q];
    TableInUse(s.lay, s.vm, tabs, role, q);
    TableInUse(s.lay, s.vm, tabs, role, p);
    LiveWired(s.lay, s.vm, tabs, role, q);
    hide Inv, Wired, Slot, Lookup, PageBehind;
    assert t.Has(t.l1) && t.Has(t.l2) && t.Has(t.l3) && t.Has(t.lo) && t.Has(t.hi);
    TableFrame(s.vm.mem, s'.vm.mem, t);
    forall a: Va ensures Lookup(s'.vm.mem, t.l1, a) == Lookup(s.vm.mem, t.l1, a) {
      LookupWired(s.vm.mem, t, a);
      LookupWired(s'.vm.mem, t, a);
    }
    forall v | 256 <= v < 1024 && PageBehind(s, q, v) != -1
      ensures 0 < PageBehind(s, q, v) < 512 && s'.vm.mem[PageBehind(s, q, v)] == s.vm.mem[PageBehind(s, q, v)]
    {
      var f := ParentAt(s, tabs, role, q, v);
      BehindRole(s, tabs, role, q, v);
    }
  }

  /** Noninterference: whatever the current process does, every other live process
      keeps its registers, its mappings and the contents behind them. */
  lemma StepUndisturbed(m: Mode, s: State, s': State, tabs: TableMap, role: Roles, e: Event, q: nat)
    requires MInv(m, s, tabs, role) && Allowed(m, s, e) && Step(s, e) == Ok(s')
    requires q < 16 && Live(s, q) && q != s.current
    ensures Undisturbed(s, s', q)
  {
    hide Inv, Exact, Owned, Allowed, Step, Handle, ProcsOk, Undisturbed, InUseSame, CheckVirtualMemory;
    AllowedRuns(m, s, e);
    if e.Store? {
      Isolation(s, s', tabs, role, e.va, e.w);
    } else {
      var s0 := Saved(s, e.regs);
      TrapOkIff(m, s, tabs, role, e);
      var s1, s2, tabs', role' := TrapKeeps(m, s, tabs, role, e);
      SavedKeeps(m, s, tabs, role, e.regs);
      AllowedSaved(m, s, s0, e);
      HandleConfined(m, s0, s1, tabs, role, e.call);
      Dispatched(s1, s');
      PagesKeptUndisturbed(s, s', tabs, role, q);
    }
  }
}
