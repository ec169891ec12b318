/** Every allowed step of the kernel succeeds and keeps the invariant. */
module Steps {
  import opened X86
  import opened Paging
  import opened Tables
  import opened Spaces
  import opened Alloc
  import opened Duplicate
  import opened Forks
  import opened Exits
  import opened Activation
  import opened Kernel

  // ------------------------------------------------------------- small counts

  lemma {:induction false} PidsCard(a: set<int>, n: nat)
    requires forall p :: p in a ==> 1 <= p <= n
    ensures |a| <= n
    decreases n
  {
    if n == 0 {
      forall p: int ensures p !in a {
      }
      assert a == {};
    } else {
      PidsCard(a - {n}, n - 1);
    }
  }

  /** Exact counts are at most NPROC - 1. */
  lemma ExactSmall(lay: Layout, k: VM, tabs: TableMap, role: Roles, x: nat)
    requires Inv(lay, k, tabs, role) && Exact(k, tabs, role) && x < 512
    ensures 0 <= k.info[x].refcount <= 15
  {
    assert PageOk(lay, k, tabs, role, x) && ExactAt(k, tabs, role, x);
    hide Slot, Wired, KernelTableOk, SlotsOk;
    if role[x].Shared? {
      forall p | p in Sharers(k.mem, tabs, x, role[x].home) ensures 1 <= p < 16 {
        assert SpaceOk(k.mem, tabs, role, p);
      }
      PidsCard(Sharers(k.mem, tabs, x, role[x].home), 15);
    }
  }

  lemma ExactRoom(lay: Layout, k: VM, tabs: TableMap, role: Roles, t: Table)
    requires Inv(lay, k, tabs, role) && Exact(k, tabs, role)
    ensures RoomToShare(k, t)
  {
    hide Inv, Exact, Slot;
    forall u | 256 <= u < 768 ensures CanShare(k, Slot(k.mem, t, u)) {
      var e := Slot(k.mem, t, u);
      if Frame(e) < 512 {
        ExactSmall(lay, k, tabs, role, Frame(e));
      }
    }
  }

  // -------------------------------------------------------------------- stores

  /** The page a user store may hit: a private page of that process, or the console. */
  lemma StoreTarget(lay: Layout, k: VM, tabs: TableMap, role: Roles, p: int, va: Va)
    requires Inv(lay, k, tabs, role) && p in tabs && UserWritable(k.mem, tabs[p].l1, va)
    ensures var f := Frame(E4(k.mem, tabs[p].l1, va));
            && va < 0x40_0000 && f < 512
            && ((f == 0xB8 && role[f] == System) || role[f] == Private(p, va / 4096))
  {
    LiveWired(lay, k, tabs, role, p);
    WiredLeaf(k.mem, tabs[p], va);
    var v := va / 4096;
    hide Wired, KernelTableOk, E4, E3, E2, E1, Slot, SpacesOk, PagesOk;
    assert va < 0x40_0000;
    assert SlotOk(k.mem, tabs[p], role, p, v);
    if v < 256 {
      LowForm(v);
      SystemConsole(lay);
      SystemRole(lay, k, tabs, role, 0xB8);
    } else {
      EntryForms(if Frame(Slot(k.mem, tabs[p], v)) < 512 then Frame(Slot(k.mem, tabs[p], v)) else 0);
    }
  }

  lemma StoreKeeps(lay: Layout, k: VM, tabs: TableMap, role: Roles, p: int, va: Va, w: Word)
    requires Inv(lay, k, tabs, role) && p in tabs && UserWritable(k.mem, tabs[p].l1, va)
    ensures var k' := VM(StoreWord(k.mem, tabs[p].l1, va, w), k.info);
            && Inv(lay, k', tabs, role)
            && SlotsSame(lay, k.mem, k'.mem, tabs)
            && (Exact(k, tabs, role) ==> Exact(k', tabs, role))
            && (Owned(k, tabs, role) ==> Owned(k', tabs, role))
  {
    var f := Frame(E4(k.mem, tabs[p].l1, va));
    StoreTarget(lay, k, tabs, role, p, va);
    var m := StoreWord(k.mem, tabs[p].l1, va, w);
    forall x | 0 <= x < 512 && IsTableFrame(lay, role, x) ensures m[x] == k.mem[x] {
      if lay.KernelTable().Has(x) {
        KernelPages(lay, k.mem, x);
        SystemRole(lay, k, tabs, role, x);
      }
    }
    hide Inv, Exact, Owned, SlotsSame, E4, UserWritable, StoreWord;
    DataKeeps(lay, k, tabs, role, m);
  }

  // --------------------------------------------------------------- system calls

  lemma TableOfCurrent(s: State, tabs: TableMap, role: Roles)
    requires KInv(s, tabs, role) && Live(s, s.current)
    ensures s.current in tabs && TableAt(s.vm.mem, s.procs[s.current].pagetable) == tabs[s.current]
  {
    LiveWired(s.lay, s.vm, tabs, role, s.current);
    TableAtWired(s.vm.mem, tabs[s.current]);
  }

  lemma FreshSlot(s: State, tabs: TableMap)
    requires ProcsOk(s, tabs) && Live(s, s.current) && FreeSlot(s.procs, 1) < 16
    ensures s.current in tabs && FreeSlot(s.procs, 1) !in tabs && s.procs[s.current].pagetable == tabs[s.current].l1
  {
    assert !Live(s, FreeSlot(s.procs, 1));
  }

  lemma ForkStepKeeps(m: Mode, s: State, tabs: TableMap, role: Roles) returns (s': State, tabs': TableMap, role': Roles)
    requires MInv(m, s, tabs, role) && Live(s, s.current)
    requires FreeSlot(s.procs, 1) < 16 ==>
               HasMemory(s.vm, tabs[s.current]) && (m == Loose ==> RoomToShare(s.vm, tabs[s.current]))
    ensures SysFork(s) == Ok(s') && MInv(m, s', tabs', role') && s'.current == s.current
  {
    hide Inv, Exact, Owned, ForkSpace, FreeSlot, RoomToShare, ForkEffect, FreePages, ToCopy, RolesWithTable;
    var c := FreeSlot(s.procs, 1);
    var p := s.current;
    if c == 16 {
      return s.(procs := SetRax(s.procs, p, -1)), tabs, role;
    }
    assert c !in tabs;
    if m != Loose {
      ExactRoom(s.lay, s.vm, tabs, role, tabs[p]);
    }
    var vm, tc, r', k1, role1 := ForkKeeps(s.lay, s.vm, tabs, role, p, c);
    var procs := s.procs[c := Proc(s.procs[p].regs.(rax := 0), P_RUNNABLE, tc.l1)];
    s' := s.(vm := vm, procs := SetRax(procs, p, c));
    tabs' := tabs[c := tc];
    role' := r';
  }

  lemma ForkVm(s: State, k': VM, root: nat)
    requires s.current < 16 && FreeSlot(s.procs, 1) < 16
    requires ForkSpace(s.vm, s.procs[s.current].pagetable, FreeSlot(s.procs, 1)) == Ok((k', root)) && root != 0
    ensures SysFork(s).Ok? && SysFork(s).value.vm == k' && SysFork(s).value.lay == s.lay
            && SysFork(s).value.current == s.current
    ensures s.current != FreeSlot(s.procs, 1) ==> var p, q := s.procs[s.current], SysFork(s).value.procs[s.current];
                                                  q.state == p.state && q.pagetable == p.pagetable
    ensures s.current != FreeSlot(s.procs, 1) ==> SysFork(s).value.procs[FreeSlot(s.procs, 1)].pagetable == root
  {
    hide ForkSpace, FreeSlot;
  }

  lemma OutliveFree(lay: Layout, k: VM, tabs: TableMap, role: Roles, p: int)
    requires Inv(lay, k, tabs, role) && Exact(k, tabs, role) && 0 <= p
    ensures (forall x :: 0 <= x < 512 && k.info[x].owner == p ==> k.info[x].refcount < 2)
       <==> (forall x :: 0 <= x < 512 ==> !OutlivesOwner(k, role, p, x))
  {
    hide Slot, Wired, KernelTableOk, SpacesOk, SlotsOk, Sharers;
    forall x | 0 <= x < 512 ensures OutlivesOwner(k, role, p, x) <==> k.info[x].owner == p && k.info[x].refcount >= 2 {
      assert PageOk(lay, k, tabs, role, x) && ExactAt(k, tabs, role, x);
    }
  }

  lemma ExitStepKeeps(m: Mode, s: State, tabs: TableMap, role: Roles) returns (tabs': TableMap, role': Roles)
    requires MInv(m, s, tabs, role) && Live(s, s.current)
    requires m == Checked ==> forall x :: 0 <= x < 512 && s.vm.info[x].owner == s.current ==> s.vm.info[x].refcount < 2
    ensures MInv(m, SysExit(s), tabs', role')
  {
    var p := s.current;
    assert p in tabs && s.procs[p].pagetable == tabs[p].l1;
    hide Inv, Exact, Owned, ExitSpace, OutlivesOwner, RolesAfterExit, ExitedTo;
    ExitKeeps(s.lay, s.vm, tabs, role, p);
    if m == Checked {
      OutliveFree(s.lay, s.vm, tabs, role, p);
    }
    tabs', role' := tabs - {p}, RolesAfterExit(s.vm, tabs[p], role, p);
    ExitProcs(s, tabs);
    hide ProcsOk, SysExit;
    ExitVm(s);
  }

  lemma ExitVm(s: State)
    requires s.current < 16
    ensures SysExit(s).vm == ExitSpace(s.vm, s.procs[s.current].pagetable, s.current) && SysExit(s).lay == s.lay
  {
  }

  lemma ExitProcs(s: State, tabs: TableMap)
    requires ProcsOk(s, tabs) && s.current in tabs
    ensures ProcsOk(SysExit(s), tabs - {s.current})
  {
    hide ExitSpace;
    var s' := SysExit(s);
    forall q ensures q in tabs - {s.current} <==> Live(s', q) {
      assert Live(s', q) <==> Live(s, q) && q != s.current;
    }
  }

  lemma PageAllocStepKeeps(m: Mode, s: State, tabs: TableMap, role: Roles, addr: Va) returns (s': State, role': Roles)
    requires MInv(m, s, tabs, role) && Live(s, s.current)
    requires if m == Loose then addr % 4096 == 0 || addr < PROC_START_ADDR
             else GoodRequest(s.vm.mem, tabs[s.current], addr)
    ensures SysPageAlloc(s, addr) == Ok(s') && MInv(m, s', tabs, role') && s'.current == s.current
  {
    var p := s.current;
    assert p in tabs;
    hide Inv, Exact, Owned, AllocAt, MappedFresh, Slot;
    role' := PageAllocKeeps(s.lay, s.vm, tabs, role, p, addr);
    s' := SysPageAlloc(s, addr).value;
  }

  /** Only the address spaces and the live set matter to the invariant. */
  lemma SameSpaces(m: Mode, s: State, s': State, tabs: TableMap, role: Roles)
    requires MInv(m, s, tabs, role)
    requires s'.lay == s.lay && s'.vm == s.vm && s'.current < 16
    requires forall p :: 0 <= p < 16 ==> (s'.procs[p].state == P_FREE <==> s.procs[p].state == P_FREE)
                                         && s'.procs[p].pagetable == s.procs[p].pagetable
    ensures MInv(m, s', tabs, role)
  {
    hide Inv, Exact, Owned;
    assert forall p :: Live(s', p) <==> Live(s, p);
  }

  lemma HandleKeeps(m: Mode, s: State, tabs: TableMap, role: Roles, call: Call)
    returns (s': State, tabs': TableMap, role': Roles)
    requires MInv(m, s, tabs, role) && Live(s, s.current) && Allowed(m, s, Trap(s.procs[s.current].regs, call))
    ensures Handle(s, call) == Ok(s') && MInv(m, s', tabs', role') && s'.current == s.current
  {
    TableOfCurrent(s, tabs, role);
    hide Inv, Exact, Owned, SysFork, SysExit, SysPageAlloc, TableAt, GoodRequest, HasMemory, RoomToShare;
    tabs', role' := tabs, role;
    match call {
      case Fork =>
        s', tabs', role' := ForkStepKeeps(m, s, tabs, role);
      case Exit =>
        s' := SysExit(s);
        tabs', role' := ExitStepKeeps(m, s, tabs, role);
        assert s'.current == s.current by { ExitCurrent(s); }
      case PageAlloc(addr) =>
        s', role' := PageAllocStepKeeps(m, s, tabs, role, addr);
      case _ =>
        s' := Handle(s, call).value;
        SameSpaces(m, s, s', tabs, role);
    }
  }

  lemma ExitCurrent(s: State)
    requires s.current < 16
    ensures SysExit(s).current == s.current
  {
  }

  // --------------------------------------------------------------------- traps

  /** The self-check looks at no registers and not at `current`. */
  lemma CheckSame(s: State, s': State)
    requires s'.lay == s.lay && s'.vm == s.vm
    requires forall p :: 0 <= p < 16 ==>
               s'.procs[p].state == s.procs[p].state && s'.procs[p].pagetable == s.procs[p].pagetable
    ensures CheckVirtualMemory(s') <==> CheckVirtualMemory(s)
  {
    hide MappingsOk, OwnershipOk;
    assert KernelUsers(s') == KernelUsers(s);
    if s.lay.Valid() {
      forall p: nat | p < 16 ensures ProcessOk(s', p) <==> ProcessOk(s, p) {
      }
    }
    forall pn: nat | pn < 512 ensures RecordOk(s', pn) <==> RecordOk(s, pn) {
    }
  }

  /** The checks before the switch come down to check_virtual_memory. */
  lemma EntryChecks(s: State, tabs: TableMap, role: Roles, regs: Registers, call: Call)
    requires KInv(s, tabs, role)
    ensures Trapped(s, regs, call) == if CheckVirtualMemory(s) then Handle(Saved(s, regs), call) else Panic
  {
    assert KernelTableOk(s.lay, s.vm.mem);
    hide Inv, KernelTableOk, SetPagetableOk, CheckVirtualMemory, Handle;
    KernelActivates(s.lay, s.vm.mem);
    CheckSame(s, Saved(s, regs));
  }

  /** Leaving through run: the next process's table can be activated. */
  lemma RunHolds(s: State, tabs: TableMap, role: Roles)
    requires KInv(s, tabs, role)
    ensures RunCurrent(s) == Ok(s)
  {
    hide Inv, SetPagetableOk;
    if s.procs[s.current].state == P_RUNNABLE {
      assert Live(s, s.current);
      LiveActivates(s.lay, s.vm, tabs, role, s.current);
    }
  }

  /** An allowed trap that passes the self-check: its handler does not panic, the
      invariant survives, and the kernel returns to user mode. */
  lemma TrapKeeps(m: Mode, s: State, tabs: TableMap, role: Roles, e: Event)
    returns (s1: State, s': State, tabs': TableMap, role': Roles)
    requires MInv(m, s, tabs, role) && Allowed(m, s, e) && e.Trap? && CheckVirtualMemory(s)
    ensures Handle(Saved(s, e.regs), e.call) == Ok(s1) && s1.current == s.current
    ensures s' == (if Reschedules(s1, e.call) then Dispatch(s1) else s1) && Step(s, e) == Ok(s')
    ensures MInv(m, s', tabs', role')
  {
    hide Inv, Exact, Owned, Handle, Allowed, CheckVirtualMemory, Trapped, RunCurrent, Dispatch, ProcsOk;
    AllowedRuns(m, s, e);
    var s0 := Saved(s, e.regs);
    EntryChecks(s, tabs, role, e.regs, e.call);
    SavedKeeps(m, s, tabs, role, e.regs);
    AllowedSaved(m, s, s0, e);
    s1, tabs', role' := HandleKeeps(m, s0, tabs, role, e.call);
    s' := if Reschedules(s1, e.call) then Dispatch(s1) else s1;
    DispatchKeeps(m, s1, tabs', role');
    RunHolds(s', tabs', role');
  }

  lemma AllowedRuns(m: Mode, s: State, e: Event)
    requires Allowed(m, s, e)
    ensures Enabled(s, e) && s.current < 16 && s.procs[s.current].state == P_RUNNABLE && Live(s, s.current)
  {
  }

  lemma SavedKeeps(m: Mode, s: State, tabs: TableMap, role: Roles, regs: Registers)
    requires MInv(m, s, tabs, role)
    ensures s.current < 16 && MInv(m, Saved(s, regs), tabs, role)
  {
    hide Inv, Exact, Owned;
    SameSpaces(m, s, Saved(s, regs), tabs, role);
  }

  lemma DispatchKeeps(m: Mode, s: State, tabs: TableMap, role: Roles)
    requires MInv(m, s, tabs, role)
    ensures MInv(m, Dispatch(s), tabs, role)
  {
    hide Inv, Exact, Owned, NextRunnable;
    SameSpaces(m, s, Dispatch(s), tabs, role);
  }

  /** One step, for every event: unless it traps into a failing self-check it does
      not panic, and the invariant survives. */
  lemma StepKeeps(m: Mode, s: State, tabs: TableMap, role: Roles, e: Event)
    returns (s': State, tabs': TableMap, role': Roles)
    requires MInv(m, s, tabs, role) && Allowed(m, s, e) && (e.Trap? ==> CheckVirtualMemory(s))
    ensures Step(s, e) == Ok(s') && MInv(m, s', tabs', role')
  {
    hide Inv, Exact, Owned, Allowed, Step, CheckVirtualMemory;
    AllowedRuns(m, s, e);
    if e.Store? {
      StoreStepKeeps(m, s, tabs, role, e);
      s', tabs', role' := Step(s, e).value, tabs, role;
    } else {
      var s1;
      s1, s', tabs', role' := TrapKeeps(m, s, tabs, role, e);
    }
  }

  lemma StoreStepKeeps(m: Mode, s: State, tabs: TableMap, role: Roles, e: Event)
    requires MInv(m, s, tabs, role) && Enabled(s, e) && e.Store?
    ensures Step(s, e).Ok? && MInv(m, Step(s, e).value, tabs, role)
  {
    assert Live(s, s.current) && s.current in tabs;
    hide Inv, Exact, Owned, UserWritable, StoreWord;
    StoreKeeps(s.lay, s.vm, tabs, role, s.current, e.va, e.w);
  }

  /** In every mode an allowed trap completes exactly when the machine it interrupts
      passes check_virtual_memory. */
  lemma TrapOkIff(m: Mode, s: State, tabs: TableMap, role: Roles, e: Event)
    requires MInv(m, s, tabs, role) && Allowed(m, s, e) && e.Trap?
    ensures Step(s, e).Ok? <==> CheckVirtualMemory(s)
  {
    if CheckVirtualMemory(s) {
      var s', tabs', role' := StepKeeps(m, s, tabs, role, e);
    } else {
      hide Inv, Exact, Owned, Handle, CheckVirtualMemory, Trapped, RunCurrent, Dispatch;
      EntryChecks(s, tabs, role, e.regs, e.call);
    }
  }

  lemma EnabledSaved(s: State, s0: State, e: Event)
    requires Enabled(s, e) && e.Trap?
    ensures s.current < 16
    ensures s0 == Saved(s, e.regs) ==> Enabled(s0, Trap(e.regs, e.call))
  {
  }

  lemma AllowedSaved(m: Mode, s: State, s0: State, e: Event)
    requires Allowed(m, s, e) && e.Trap?
    requires s0 == Saved(s, e.regs)
    ensures Allowed(m, s0, Trap(e.regs, e.call))
  {
    hide FreeSlot, TableAt, HasMemory, RoomToShare, GoodRequest, Enabled;
    FreeSlotSaved(s.procs, s0.procs, 1);
    EnabledSaved(s, s0, e);
    assert s0.procs[s.current].pagetable == s.procs[s.current].pagetable;
  }

  lemma FreeSlotSaved(a: Procs, b: Procs, i: nat)
    requires i <= 16 && forall p :: 0 <= p < 16 ==> a[p].state == b[p].state
    ensures FreeSlot(a, i) == FreeSlot(b, i)
    decreases 16 - i
  {
  }
}
