/** When the kernel's run-time check `check_virtual_memory` (kernel.c:514-611), called
    on every exception, passes. */
module SelfCheck {
  import opened X86
  import opened Paging
  import opened Tables
  import opened Spaces
  import opened Duplicate
  import opened Forks
  import opened Exits
  import opened Activation
  import opened Kernel
  import opened Steps
  import opened Properties
  import opened ForkProperties

  // -------------------------------------------------- what the loops look at

  /** From `from` on, every page of the kernel is mapped to itself; its data writable. */
  predicate KernelMapped(mem: Memory, root: nat, lay: Layout, from: Va) {
    forall va: Va :: from <= va < lay.end && va % 4096 == 0 ==>
      && Lookup(mem, root, va).pa == va
      && (va >= lay.startData ==> Writable(Lookup(mem, root, va).perm))
  }

  /** check_page_table_mappings passes exactly when every page from 0x40000 up to the
      end of the kernel and the kernel's stack page are mapped to themselves, with
      the data and the stack writable. */
  lemma MappingsMeaning(mem: Memory, root: nat, lay: Layout)
    requires lay.Valid()
    ensures MappingsOk(mem, root, lay)
       <==> && KernelMapped(mem, root, lay, 0x40000)
            && Lookup(mem, root, 0x7F000).pa == 0x7F000 && Writable(Lookup(mem, root, 0x7F000).perm)
  {
    hide MappedFrom, KernelMapped, Lookup, Writable;
    MappedAre(mem, root, lay, 0x40000);
  }

  lemma {:induction false} MappedAre(mem: Memory, root: nat, lay: Layout, va: Va)
    requires lay.Valid() && va % 4096 == 0
    ensures MappedFrom(mem, root, lay, va) <==> KernelMapped(mem, root, lay, va)
    decreases lay.end - va
  {
    hide Lookup, Writable;
    if va < lay.end {
      NextPage(va);
      MappedAre(mem, root, lay, va + 4096);
    }
  }

  lemma NextPage(va: Va)
    requires va % 4096 == 0
    ensures (va + 4096) % 4096 == 0
    ensures forall x: Va :: x % 4096 == 0 && x > va ==> x >= va + 4096
  {
  }

  /** The nonzero entries at these indices lead from page to page. */
  predicate Path(mem: Memory, pt: nat, path: seq<nat>)
    decreases |path|
  {
    path == [] ||
    (path[0] < 512 && Entry(mem, pt, path[0]) != 0 && Path(mem, Frame(Entry(mem, pt, path[0])), path[1..]))
  }

  function PathEnd(mem: Memory, pt: nat, path: seq<nat>): nat
    requires Path(mem, pt, path)
    decreases |path|
  {
    if path == [] then pt else PathEnd(mem, Frame(Entry(mem, pt, path[0])), path[1..])
  }

  /** At most `n` entries away from `pt`, there are only installed pages on record to
      `owner`, with one reference; `pt` itself has `refcount`. */
  ghost predicate OwnsPaths(mem: Memory, info: Info, pt: nat, n: nat, owner: int, refcount: int) {
    forall path: seq<nat> :: |path| <= n && Path(mem, pt, path) ==>
      OnRecord(info, PathEnd(mem, pt, path), owner, if path == [] then refcount else 1)
  }

  predicate OnRecord(info: Info, x: nat, owner: int, refcount: int) {
    x < 512 && info[x] == PageInfo(owner, refcount)
  }

  /** check_page_table_ownership passes exactly when every page that at most three
      nonzero entries lead to from the root is on record to the owner, once. */
  lemma {:induction false} OwnershipMeaning(mem: Memory, info: Info, pt: nat, level: nat, owner: int, refcount: int)
    requires level <= 3
    ensures OwnershipOk(mem, info, pt, level, owner, refcount)
       <==> OwnsPaths(mem, info, pt, 3 - level, owner, refcount)
    decreases 3 - level
  {
    hide OwnsPaths, Frame;
    PathStart(mem, info, pt, 3 - level, owner, refcount);
    if level < 3 && pt < 512 {
      forall i: nat | i < 512
        ensures OwnsBehind(mem, info, pt, i, 2 - level, owner)
           <==> (mem[pt][i] != 0 ==> OwnershipOk(mem, info, Frame(mem[pt][i]), level + 1, owner, 1))
      {
        OwnershipMeaning(mem, info, Frame(mem[pt][i]), level + 1, owner, 1);
      }
      PathSteps(mem, info, pt, 2 - level, owner, refcount);
    } else if pt < 512 {
      NoSteps(mem, info, pt, owner, refcount);
    }
  }

  lemma PathStart(mem: Memory, info: Info, pt: nat, n: nat, owner: int, refcount: int)
    ensures OwnsPaths(mem, info, pt, n, owner, refcount) ==> OnRecord(info, pt, owner, refcount)
  {
    assert Path(mem, pt, []) && PathEnd(mem, pt, []) == pt;
  }

  lemma NoSteps(mem: Memory, info: Info, pt: nat, owner: int, refcount: int)
    ensures OwnsPaths(mem, info, pt, 0, owner, refcount) <==> OnRecord(info, pt, owner, refcount)
  {
    PathStart(mem, info, pt, 0, owner, refcount);
    forall path: seq<nat> | |path| <= 0 ensures path == [] {
    }
    hide Frame;
  }

  /** A step from `pt` through entry `i`. */
  ghost predicate OwnsBehind(mem: Memory, info: Info, pt: nat, i: nat, n: nat, owner: int)
    requires i < 512
  {
    Entry(mem, pt, i) != 0 ==> OwnsPaths(mem, info, Frame(Entry(mem, pt, i)), n, owner, 1)
  }

  lemma PathSteps(mem: Memory, info: Info, pt: nat, n: nat, owner: int, refcount: int)
    ensures OwnsPaths(mem, info, pt, n + 1, owner, refcount)
       <==> && OnRecord(info, pt, owner, refcount)
            && forall i: nat :: i < 512 ==> OwnsBehind(mem, info, pt, i, n, owner)
  {
    PathStart(mem, info, pt, n + 1, owner, refcount);
    hide OnRecord, Frame, Entry;
    if OwnsPaths(mem, info, pt, n + 1, owner, refcount) {
      forall i: nat | i < 512 ensures OwnsBehind(mem, info, pt, i, n, owner) {
        StepBehind(mem, info, pt, i, n, owner, refcount);
      }
    } else if OnRecord(info, pt, owner, refcount) {
      var path: seq<nat> :| |path| <= n + 1 && Path(mem, pt, path)
        && !OnRecord(info, PathEnd(mem, pt, path), owner, if path == [] then refcount else 1);
      assert path != [];
      var i, next := path[0], Frame(Entry(mem, pt, path[0]));
      assert |path[1..]| <= n && Path(mem, next, path[1..]);
      assert !OwnsPaths(mem, info, next, n, owner, 1);
      assert !OwnsBehind(mem, info, pt, i, n, owner);
    }
  }

  lemma StepBehind(mem: Memory, info: Info, pt: nat, i: nat, n: nat, owner: int, refcount: int)
    requires i < 512 && OwnsPaths(mem, info, pt, n + 1, owner, refcount)
    ensures OwnsBehind(mem, info, pt, i, n, owner)
  {
    hide OnRecord, Frame, Entry;
    if Entry(mem, pt, i) != 0 {
      var next := Frame(Entry(mem, pt, i));
      forall path: seq<nat> | |path| <= n && Path(mem, next, path)
        ensures OnRecord(info, PathEnd(mem, next, path), owner, if path == [] then 1 else 1)
      {
        var longer := [i] + path;
        assert longer[1..] == path;
        assert Path(mem, pt, longer) && PathEnd(mem, pt, longer) == PathEnd(mem, next, path);
      }
    }
  }

  /** Tables whose low slots are the identity pass the mapping checks. */
  predicate LowIdentity(mem: Memory, t: Table) {
    Wired(mem, t) && forall v :: 0 <= v < 256 ==> Slot(mem, t, v) == LowEntry(v)
  }

  lemma SmallPerms()
    ensures Writable(3) && Writable(7)
  {
  }

  lemma LowIdentityLookup(mem: Memory, t: Table, a: Va)
    requires LowIdentity(mem, t) && a < PROC_START_ADDR
    ensures Lookup(mem, t.l1, a).pa == a && Writable(Lookup(mem, t.l1, a).perm)
  {
    hide Wired, Slot, Lookup, LowEntry, Writable;
    var v := a / 4096;
    assert Slot(mem, t, v) == LowEntry(v);
    LowLookup(mem, t, a);
    SmallPerms();
  }

  lemma {:induction false} MappingsHold(mem: Memory, t: Table, lay: Layout, va: Va)
    requires LowIdentity(mem, t) && lay.Valid()
    ensures MappedFrom(mem, t.l1, lay, va)
    decreases lay.end - va
  {
    hide LowIdentity, Lookup, Writable;
    if va < lay.end {
      LowIdentityLookup(mem, t, va);
      MappingsHold(mem, t, lay, va + 4096);
    }
  }

  lemma LowTableChecks(mem: Memory, t: Table, lay: Layout)
    requires LowIdentity(mem, t) && lay.Valid()
    ensures MappingsOk(mem, t.l1, lay)
  {
    hide LowIdentity, Lookup, Writable, MappedFrom;
    MappingsHold(mem, t, lay, KERNEL_START_ADDR);
    LowIdentityLookup(mem, t, KERNEL_STACK_PAGE);
  }

  /** The recursive ownership walk of a wired table visits its five pages. */
  lemma OwnershipHolds(mem: Memory, info: Info, t: Table, owner: int)
    requires Wired(mem, t) && forall x :: t.Has(x) ==> info[x] == PageInfo(owner, 1)
    ensures OwnershipOk(mem, info, t.l1, 0, owner, 1)
  {
    FullBits(t.l2);
    FullBits(t.l3);
    FullBits(t.lo);
    FullBits(t.hi);
    assert t.Has(t.l1) && t.Has(t.l2) && t.Has(t.l3) && t.Has(t.lo) && t.Has(t.hi);
    hide Frame, Full;
    assert OwnershipOk(mem, info, t.lo, 3, owner, 1) && OwnershipOk(mem, info, t.hi, 3, owner, 1);
    assert OwnershipOk(mem, info, t.l3, 2, owner, 1);
    assert OwnershipOk(mem, info, t.l2, 1, owner, 1);
  }

  lemma LiveTableChecks(s: State, tabs: TableMap, role: Roles, p: nat)
    requires KInv(s, tabs, role) && p < 16 && Live(s, p)
    ensures s.lay.Valid() && p in tabs && LowIdentity(s.vm.mem, tabs[p]) && ProcessOk(s, p)
    ensures s.procs[p].pagetable != s.lay.tables
  {
    SourceOk(s.lay, s.vm, tabs, role, p);
    TableInUse(s.lay, s.vm, tabs, role, p);
    assert s.lay.KernelTable().Has(s.lay.tables);
    KernelPagesOf(s, tabs, role, s.lay.tables);
    assert tabs[p].Has(tabs[p].l1);
    assert s.lay.Valid();
    hide Inv, Wired, Slot, MappingsOk, OwnershipOk;
    OwnershipHolds(s.vm.mem, s.vm.info, tabs[p], p);
    LowTableChecks(s.vm.mem, tabs[p], s.lay);
  }

  lemma KernelTableChecks(s: State, tabs: TableMap, role: Roles)
    requires KInv(s, tabs, role)
    ensures s.lay.Valid() && LowIdentity(s.vm.mem, s.lay.KernelTable())
    ensures MappingsOk(s.vm.mem, s.lay.tables, s.lay)
    ensures OwnershipOk(s.vm.mem, s.vm.info, s.lay.tables, 0, PO_KERNEL, 1)
    ensures KernelUsers(s) == {}
  {
    var t := s.lay.KernelTable();
    forall x | t.Has(x) ensures s.vm.info[x] == PageInfo(PO_KERNEL, 1) {
      KernelPagesOf(s, tabs, role, x);
      assert PageOk(s.lay, s.vm, tabs, role, x);
    }
    assert s.lay.Valid() && t.l1 == s.lay.tables;
    forall p: nat | p < 16 && Live(s, p) ensures s.procs[p].pagetable != s.lay.tables {
      LiveTableChecks(s, tabs, role, p);
    }
    assert LowIdentity(s.vm.mem, t);
    hide Inv, Wired, Slot, MappingsOk, OwnershipOk, LowIdentity;
    LowTableChecks(s.vm.mem, t, s.lay);
    assert Wired(s.vm.mem, t) by { WiredOfLow(s.vm.mem, t); }
    OwnershipHolds(s.vm.mem, s.vm.info, t, PO_KERNEL);
  }

  lemma WiredOfLow(mem: Memory, t: Table)
    requires LowIdentity(mem, t)
    ensures Wired(mem, t)
  {
  }

  lemma RecordsHold(s: State, tabs: TableMap, role: Roles, pn: nat)
    requires KInv(s, tabs, role) && Owned(s.vm, tabs, role) && pn < 512
    ensures RecordOk(s, pn)
  {
    assert PageOk(s.lay, s.vm, tabs, role, pn) && OwnedAt(s.vm, tabs, role, pn);
    hide Slot, Wired;
  }

  ghost predicate RecordsOk(s: State) {
    forall x: nat :: x < 512 ==> RecordOk(s, x)
  }

  /** Under the invariant check_virtual_memory comes down to its last loop: every
      page in use and on record to a process is on record to a live one. */
  lemma CheckIsRecords(s: State, tabs: TableMap, role: Roles)
    requires KInv(s, tabs, role)
    ensures CheckVirtualMemory(s) <==> RecordsOk(s)
  {
    KernelTableChecks(s, tabs, role);
    hide Inv, MappingsOk, OwnershipOk, LowIdentity, KernelUsers, ProcessOk, RecordOk;
    forall p: nat | p < 16 ensures ProcessOk(s, p) {
      if Live(s, p) {
        LiveTableChecks(s, tabs, role, p);
      } else {
        DeadProcess(s, p);
      }
    }
  }

  lemma DeadProcess(s: State, p: nat)
    requires p < 16 && !Live(s, p) && s.lay.Valid()
    ensures ProcessOk(s, p)
  {
  }

  /** With owners in place every assert of check_virtual_memory holds. */
  lemma SelfCheckHolds(s: State, tabs: TableMap, role: Roles)
    requires KInv(s, tabs, role) && Owned(s.vm, tabs, role)
    ensures CheckVirtualMemory(s)
  {
    hide KInv, Owned, RecordOk, CheckVirtualMemory;
    CheckIsRecords(s, tabs, role);
    forall pn: nat | pn < 512 ensures RecordOk(s, pn) {
      RecordsHold(s, tabs, role, pn);
    }
  }

  // --------------------------------------------------------------------- exits

  /** Page `x` is behind a user-range mapping of `p` or part of its table: exit will
      find it. */
  ghost predicate Found(s: State, p: nat, x: nat)
    requires p < 16
  {
    TablesOf(s, p).Has(x) || exists v :: 256 <= v < 768 && PageBehind(s, p, v) == x
  }

  /** Exit releases the record of `x`, if it is one of `p`'s. */
  ghost predicate ExitReleases(s: State, p: nat, x: nat)
    requires p < 16 && x < 512
  {
    s.vm.info[x].owner == p && s.vm.info[x].refcount > 0 ==> s.vm.info[x].refcount == 1 && Found(s, p, x)
  }

  /** Which pages exit finds, by role. */
  lemma FoundByRole(s: State, tabs: TableMap, role: Roles, p: nat, x: nat)
    requires KInv(s, tabs, role) && p < 16 && Live(s, p) && 0 < x < 512
    ensures p in tabs
    ensures Found(s, p, x) <==>
              || (role[x].TablePage? && role[x].pid == p)
              || (role[x].Private? && role[x].pid == p && role[x].vpn < 768)
              || (role[x].Shared? && Shares(s.vm.mem, tabs[p], x, role[x].home))
  {
    Behind(s, tabs, role, p, 0);
    TableInUse(s.lay, s.vm, tabs, role, p);
    RolePids(s, tabs, role, x);
    TablePages(s, tabs, role, x);
    hide KInv, PageBehind, TablesOf, Shares;
    forall v | 256 <= v < 768
      ensures PageBehind(s, p, v) == x
         <==> role[x] == Private(p, v) || (role[x] == Shared(v) && Shares(s.vm.mem, tabs[p], x, v))
    {
      RefByRole(s, tabs, role, x, p, v);
    }
  }

  lemma TablePages(s: State, tabs: TableMap, role: Roles, x: nat)
    requires KInv(s, tabs, role) && x < 512
    ensures role[x].TablePage? ==> role[x].pid in tabs && tabs[role[x].pid].Has(x)
  {
    assert PageOk(s.lay, s.vm, tabs, role, x);
  }

  /** One page's record after the exit of the current process. */
  lemma ExitRecord(s: State, tabs: TableMap, role: Roles, x: nat)
    requires KInv(s, tabs, role) && Live(s, s.current) && x < 512 && RecordOk(s, x)
    ensures RecordOk(SysExit(s), x) <==> ExitReleases(s, s.current, x)
  {
    var p := s.current;
    assert p in tabs && s.procs[p].pagetable == tabs[p].l1;
    ExitForm(s.lay, s.vm, tabs, role, p);
    assert PageOk(s.lay, s.vm, tabs, role, x);
    if x > 0 {
      FoundByRole(s, tabs, role, p, x);
    }
    hide Inv, ExitSpace, Slot, Sharers, Found, Shares, ProcsOk;
    ExitVm(s);
    ExitStates(s);
  }

  lemma ExitStates(s: State)
    requires s.current < 16
    ensures forall q :: Live(SysExit(s), q) <==> Live(s, q) && q != s.current
  {
    hide ExitSpace;
  }

  /** From every consistent state that passes it, the self-check survives an exit
      exactly when each page in use on record to the process has one reference and
      is found by the exit; any other stays on record to a dead process. */
  lemma ExitCheckIff(s: State, tabs: TableMap, role: Roles)
    requires KInv(s, tabs, role) && Live(s, s.current) && CheckVirtualMemory(s)
    ensures CheckVirtualMemory(SysExit(s)) <==> forall x: nat :: x < 512 ==> ExitReleases(s, s.current, x)
  {
    hide Inv, Exact, Owned, CheckVirtualMemory, ExitSpace, SysExit, ExitReleases, RecordOk;
    CheckIsRecords(s, tabs, role);
    var tabs', role' := ExitStepKeeps(Loose, s, tabs, role);
    CheckIsRecords(SysExit(s), tabs', role');
    forall x: nat | x < 512 ensures RecordOk(SysExit(s), x) <==> ExitReleases(s, s.current, x) {
      ExitRecord(s, tabs, role, x);
    }
  }

  /** Where counts are exact and owners in place, that is to say: no page the process
      owns has two or more references. */
  lemma ExitSelfCheck(s: State, tabs: TableMap, role: Roles)
    requires MInv(Checked, s, tabs, role) && Live(s, s.current)
    ensures CheckVirtualMemory(SysExit(s))
       <==> forall x :: 0 <= x < 512 && s.vm.info[x].owner == s.current ==> s.vm.info[x].refcount < 2
  {
    hide Inv, Exact, Owned, CheckVirtualMemory, SysExit, ProcsOk;
    SelfCheckHolds(s, tabs, role);
    ExitCheckIff(s, tabs, role);
    forall x: nat | x < 512
      ensures ExitReleases(s, s.current, x) <==> (s.vm.info[x].owner == s.current ==> s.vm.info[x].refcount < 2)
    {
      OwnedFound(s, tabs, role, x);
    }
  }

  lemma OwnedFound(s: State, tabs: TableMap, role: Roles, x: nat)
    requires MInv(Checked, s, tabs, role) && Live(s, s.current) && x < 512
    ensures ExitReleases(s, s.current, x) <==> (s.vm.info[x].owner == s.current ==> s.vm.info[x].refcount < 2)
  {
    var p := s.current;
    assert PageOk(s.lay, s.vm, tabs, role, x) && OwnedAt(s.vm, tabs, role, x) && p in tabs;
    PrivateBelow(s, tabs, role, x);
    if x > 0 {
      FoundByRole(s, tabs, role, p, x);
    }
    hide Inv, Exact, Owned, Slot, Found, Shares, ProcsOk;
  }

  lemma PrivateBelow(s: State, tabs: TableMap, role: Roles, x: nat)
    requires MInv(Checked, s, tabs, role) && x < 512
    ensures role[x].Private? ==> role[x].vpn < 768
  {
    assert PageOk(s.lay, s.vm, tabs, role, x);
    if role[x].Private? && role[x].vpn >= 768 {
      EntryForms(x);
    }
  }

  // ---------------------------------------------------------------- other steps

  lemma PageAllocRecords(s: State, s': State, addr: Va)
    requires s.current < 16 && Live(s, s.current) && SysPageAlloc(s, addr) == Ok(s') && RecordsOk(s)
    ensures RecordsOk(s')
  {
    hide MapPage, FindFree;
    forall x: nat | x < 512 ensures RecordOk(s', x) {
      assert RecordOk(s, x);
    }
  }

  /** An allowed fork is guarded. */
  lemma GuardHolds(m: Mode, s: State, tabs: TableMap, role: Roles)
    requires MInv(m, s, tabs, role) && Live(s, s.current) && FreeSlot(s.procs, 1) < 16
    requires Allowed(m, s, Trap(s.procs[s.current].regs, Fork))
    ensures ForkGuard(s.vm, TablesOf(s, s.current))
  {
    TableOfCurrent(s, tabs, role);
    hide Inv, Exact, Owned, RoomToShare, TableAt, FreeSlot, FreePages, ToCopy;
    if m != Loose {
      ExactRoom(s.lay, s.vm, tabs, role, tabs[s.current]);
    }
  }

  lemma NoSlot(s: State)
    requires s.current < 16 && FreeSlot(s.procs, 1) == 16
    ensures SysFork(s) == Ok(s.(procs := SetRax(s.procs, s.current, -1)))
  {
  }

  /** A fork's new records are the child's; the others keep their owners. */
  lemma ForkOwners(lay: Layout, k: VM, k1: VM, k': VM, tabs: TableMap, role1: Roles, role': Roles, p: int, c: int,
                   tc: Table, x: nat)
    requires ForkEffect(lay, k, k1, k', tabs, role1, role', p, c, tc) && x < 512 && k'.info[x].refcount > 0
    ensures k'.info[x].owner == c || (k.info[x].refcount != 0 && k'.info[x].owner == k.info[x].owner)
  {
    assert ForkedPage(k1, k', role1, role', tabs[p], tc, c, x, 768);
    hide Inv, Wired, Slot;
  }

  lemma ForkRecords(s: State, s': State, tabs: TableMap, role: Roles)
    requires KInv(s, tabs, role) && Live(s, s.current) && FreeSlot(s.procs, 1) < 16
    requires ForkGuard(s.vm, TablesOf(s, s.current)) && SysFork(s) == Ok(s') && RecordsOk(s)
    ensures RecordsOk(s')
  {
    hide KInv, ForkGuard, TablesOf, SysFork, ForkEffect, FreeSlot, RolesWithTable, FreePages, ToCopy;
    var s1, tc, role', k1, role1 := ForkResult(s, tabs, role);
    var c := FreeSlot(s.procs, 1);
    forall x: nat | x < 512 ensures RecordOk(s', x) {
      assert RecordOk(s, x);
      PositiveCounts(s, tabs, role, x);
      if s'.vm.info[x].refcount > 0 {
        ForkOwners(s.lay, s.vm, k1, s'.vm, tabs, role1, role', s.current, c, tc, x);
      }
    }
  }

  lemma PositiveCounts(s: State, tabs: TableMap, role: Roles, x: nat)
    requires KInv(s, tabs, role) && x < 512
    ensures s.vm.info[x].refcount >= 0
  {
    assert PageOk(s.lay, s.vm, tabs, role, x);
  }

  /** No handler but exit's leaves a record to a dead process. */
  lemma HandleRecords(m: Mode, s: State, s': State, tabs: TableMap, role: Roles, call: Call)
    requires MInv(m, s, tabs, role) && Live(s, s.current) && Allowed(m, s, Trap(s.procs[s.current].regs, call))
    requires Handle(s, call) == Ok(s') && RecordsOk(s) && call != Exit
    ensures RecordsOk(s')
  {
    match call {
      case Fork =>
        hide Inv, Exact, Owned, SysFork, HasMemory, RoomToShare, FreeSlot, RecordsOk, ForkGuard;
        if FreeSlot(s.procs, 1) == 16 {
          NoSlot(s);
          SameRecords(s, s');
        } else {
          GuardHolds(m, s, tabs, role);
          ForkRecords(s, s', tabs, role);
        }
      case PageAlloc(addr) =>
        hide MInv, SysPageAlloc, RecordsOk;
        PageAllocRecords(s, s', addr);
      case _ =>
        hide MInv, RecordsOk;
        SameRecords(s, s');
    }
  }

  lemma SameRecords(s: State, s': State)
    requires s'.vm.info == s.vm.info && forall q :: Live(s', q) <==> Live(s, q)
    ensures RecordsOk(s') <==> RecordsOk(s)
  {
    assert forall x: nat :: x < 512 ==> (RecordOk(s', x) <==> RecordOk(s, x));
  }

  /** The step's own condition: an exit must release what it owns. */
  ghost predicate Releases(s: State, e: Event) {
    e.Trap? && e.call == Exit ==> s.current < 16 && forall x: nat :: x < 512 ==> ExitReleases(s, s.current, x)
  }

  /** In every mode the self-check passes after a step exactly when it passed before
      and the step, if an exit, releases every page on record to the process. */
  lemma CheckAfterStep(m: Mode, s: State, s': State, tabs: TableMap, role: Roles, e: Event)
    requires MInv(m, s, tabs, role) && Allowed(m, s, e) && Step(s, e) == Ok(s')
    ensures CheckVirtualMemory(s') <==> CheckVirtualMemory(s) && Releases(s, e)
  {
    hide Inv, Exact, Owned, Allowed, Step, CheckVirtualMemory, ProcsOk, Releases, MInv;
    AllowedRuns(m, s, e);
    if e.Store? {
      StoreChecks(m, s, s', tabs, role, e);
    } else {
      TrapOkIff(m, s, tabs, role, e);
      TrapChecks(m, s, s', tabs, role, e);
    }
  }

  lemma StoreChecks(m: Mode, s: State, s': State, tabs: TableMap, role: Roles, e: Event)
    requires MInv(m, s, tabs, role) && Allowed(m, s, e) && Step(s, e) == Ok(s') && e.Store?
    ensures CheckVirtualMemory(s') <==> CheckVirtualMemory(s)
    ensures Releases(s, e)
  {
    hide Inv, Exact, Owned, CheckVirtualMemory, RecordOk, UserWritable, StoreWord;
    StoreStepKeeps(m, s, tabs, role, e);
    CheckIsRecords(s, tabs, role);
    CheckIsRecords(s', tabs, role);
    SameRecords(s, s');
  }

  lemma TrapChecks(m: Mode, s: State, s': State, tabs: TableMap, role: Roles, e: Event)
    requires MInv(m, s, tabs, role) && Allowed(m, s, e) && Step(s, e) == Ok(s') && e.Trap? && CheckVirtualMemory(s)
    ensures CheckVirtualMemory(s') <==> Releases(s, e)
  {
    hide Inv, Exact, Owned, Allowed, Step, CheckVirtualMemory, ProcsOk, ExitReleases, Handle, Dispatch, RecordsOk,
         RecordOk;
    AllowedRuns(m, s, e);
    var s0 := Saved(s, e.regs);
    SavedKeeps(m, s, tabs, role, e.regs);
    AllowedSaved(m, s, s0, e);
    CheckSame(s, s0);
    var s1, s2, tabs', role' := TrapKeeps(m, s, tabs, role, e);
    Dispatched(s1, s');
    if e.call == Exit {
      ExitHandled(s0, s1);
      hide SysExit;
      CheckSame(s1, s');
      ExitCheckIff(s0, tabs, role);
      forall x: nat | x < 512 ensures ExitReleases(s0, s.current, x) <==> ExitReleases(s, s.current, x) {
        SavedReleases(s, e.regs, x);
      }
    } else {
      CheckIsRecords(s0, tabs, role);
      HandleRecords(m, s0, s1, tabs, role, e.call);
      SameRecords(s1, s');
      CheckIsRecords(s', tabs', role');
    }
  }

  lemma Dispatched(s: State, s': State)
    requires s' == s || s' == Dispatch(s)
    ensures s'.lay == s.lay && s'.vm == s.vm && s'.procs == s.procs
  {
    hide NextRunnable;
  }

  lemma ExitHandled(s: State, s': State)
    requires s.current < 16 && Handle(s, Exit) == Ok(s')
    ensures s' == SysExit(s)
  {
    hide ExitSpace;
  }

  lemma SavedReleases(s: State, regs: Registers, x: nat)
    requires s.current < 16 && x < 512
    ensures ExitReleases(Saved(s, regs), s.current, x) <==> ExitReleases(s, s.current, x)
  {
    hide Lookup, TableAt;
    var s0 := Saved(s, regs);
    forall v | 256 <= v < 768 ensures PageBehind(s0, s.current, v) == PageBehind(s, s.current, v) {
    }
  }
}
