/** Where the kernel's promises stop, shown by runs from power-on: an exit that
    fails the self-check, and a count that wraps round while its page is mapped. */
module Limits {
  import opened X86
  import opened Paging
  import opened Tables
  import opened Spaces
  import opened Alloc
  import opened Duplicate
  import opened Forks
  import opened Exits
  import opened Kernel
  import opened Steps
  import opened Properties
  import opened ForkProperties
  import opened SelfCheck
  import opened Panics
  import opened Scheduler
  import opened Loader
  import opened LoadProperties
  import opened Boot
  import opened Runs
  import opened Overflow

  // ---------------------------------------------------------------- the program

  /** One process whose program is a single read-only page. */
  const TEXT := Segment(0x10_0000, 0, 4096, false, [])
  const IDLE := Registers(0, 0, [])
  const PROGRAM := [Job(1, [TEXT], IDLE)]

  /** The user range holds the read-only page `f` at its start and perhaps a stack. */
  predicate TextOnly(mem: Memory, t: Table, f: nat) {
    && f < 512 && Slot(mem, t, 256) == ReadOnly(f)
    && (forall u :: 256 < u < 767 ==> Slot(mem, t, u) == 0)
    && (Slot(mem, t, 767) == 0 || Writable(Slot(mem, t, 767)))
  }

  predicate OnlyRuns(procs: Procs, p: nat) {
    p < 16 && forall q :: 0 <= q < 16 ==> procs[q].state == if q == p then P_RUNNABLE else P_FREE
  }

  /** Process 1 runs alone, its read-only page `f` has count `n` and is on record to
      it, and the self-check passes. */
  ghost predicate Alone(s: State, tabs: TableMap, role: Roles, f: nat, n: int) {
    && KInv(s, tabs, role) && s.current == 1 && OnlyRuns(s.procs, 1)
    && 1 in tabs && TextOnly(s.vm.mem, tabs[1], f)
    && s.vm.info[f] == PageInfo(1, n)
    && |FreePages(s.vm.info)| >= 7
    && CheckVirtualMemory(s)
  }

  function LowPages(n: nat): (a: set<nat>)
    ensures |a| == n && forall x :: x in a <==> 1 <= x <= n
  {
    if n == 0 then {} else LowPages(n - 1) + {n}
  }

  /** At power-on no process is live and the low pages are free. */
  lemma BootFacts(lay: Layout, mem: Memory)
    requires lay.Valid()
    ensures var s := BootState(lay, mem);
            && s.lay == lay && |FreePages(s.vm.info)| >= 14
            && forall q :: 0 <= q < 16 ==> s.procs[q].state == P_FREE
  {
    hide BootMemory, LowPages;
    var b := FreePages(InitRecords(lay));
    assert LowPages(14) <= b;
    SubsetCard(LowPages(14), b);
  }

  lemma ProgramGood()
    ensures GoodJobs(PROGRAM) && GoodProgram([TEXT], MEMSIZE_VIRTUAL - 4096) && TEXT.Readable()
    ensures ProgramPages([TEXT]) == 1
  {
    assert ProgramPages([TEXT][1..]) == 0;
  }

  lemma TextLoaded(mem: Memory, t: Table) returns (f: nat)
    requires ProgramLoaded(mem, t, [TEXT]) && OnlyProgram(mem, t, [TEXT])
    ensures TextOnly(mem, t, f)
  {
    var segs := [TEXT];
    assert SegmentLoaded(mem, t, segs[0]);
    assert MappedByte(mem, t, 0x10_0000);
    f := Frame(Slot(mem, t, 256));
    hide Slot, SegmentLoaded, ReadOnly, Frame;
    forall u | 256 < u <= 767 ensures NoSegmentOn(segs, u) {
    }
  }

  /** While nobody else runs, the page is on record to process 1, once. */
  lemma TextRecord(s: State, tabs: TableMap, role: Roles, f: nat)
    requires MInv(Checked, s, tabs, role) && OnlyRuns(s.procs, 1) && 1 in tabs && f < 512
    requires Slot(s.vm.mem, tabs[1], 256) == ReadOnly(f)
    ensures s.vm.info[f] == PageInfo(1, 1)
  {
    SharedRole(s.lay, s.vm, tabs, role, 1, 256, f);
    assert ExactAt(s.vm, tabs, role, f) && OwnedAt(s.vm, tabs, role, f);
    hide Inv, Exact, Owned, Slot;
    var a := Sharers(s.vm.mem, tabs, f, 256);
    forall q ensures q in a <==> q == 1 {
      assert q in tabs <==> Live(s, q);
    }
    assert a == {1};
  }

  /** The program starts: power-on, process_setup, run. */
  lemma Start(lay: Layout, mem: Memory) returns (s: State, tabs: TableMap, role: Roles, f: nat)
    requires lay.Valid()
    ensures Initial(s, lay, mem, PROGRAM) && MInv(Checked, s, tabs, role)
    ensures Alone(s, tabs, role, f, 1)
  {
    hide Inv, Exact, Owned, BootState, BootRoles, FreePages, ProgramLoaded, OnlyProgram, ProcessSetup, GoodProgram,
         ProgramPages, ProcsOk, GoodJobs, TextOnly, SetupAll, Segment.Readable, CheckVirtualMemory;
    ProgramGood();
    BootGood(lay, mem);
    BootFacts(lay, mem);
    var s0 := BootState(lay, mem);
    SetupSucceedsIff(s0, map[], BootRoles(lay), 1, [TEXT], IDLE);
    var s1;
    s1, tabs, role := SetupKeeps(s0, map[], BootRoles(lay), 1, [TEXT], IDLE);
    s := s1.(current := 1);
    SetupOne(s0, s1);
    SameSpaces(Checked, s1, s, tabs, role);
    assert 1 in tabs;
    f := TextLoaded(s.vm.mem, tabs[1]);
    TextSlot(s.vm.mem, tabs[1], f);
    TextRecord(s, tabs, role, f);
    SelfCheckHolds(s, tabs, role);
  }

  lemma TextSlot(mem: Memory, t: Table, f: nat)
    requires TextOnly(mem, t, f)
    ensures f < 512 && Slot(mem, t, 256) == ReadOnly(f)
  {
  }

  lemma SetupOne(s0: State, s1: State)
    requires GoodJobs(PROGRAM) && TEXT.Readable() && ProcessSetup(s0, 1, [TEXT], IDLE) == Ok(s1)
    ensures SetupAll(s0, PROGRAM) == Ok(s1)
  {
    hide ProcessSetup;
    assert PROGRAM[1..] == [];
    assert SetupAll(s1, PROGRAM[1..]) == Ok(s1);
  }

  // --------------------------------------------------------------- its first fork

  lemma TextCopies(mem: Memory, t: Table, f: nat)
    requires TextOnly(mem, t, f)
    ensures |ToCopy(mem, t, 256)| <= 1
  {
    hide Full, ReadOnly, Frame, PteFlags, Present, Writable, UserOk;
    EntryForms(f);
    hide Slot;
    assert ToCopy(mem, t, 256) <= {767};
    SubsetCard(ToCopy(mem, t, 256), {767});
  }

  lemma TextGuard(k: VM, t: Table, f: nat)
    requires TextOnly(k.mem, t, f) && k.info[f].refcount < 127
    ensures |ToCopy(k.mem, t, 256)| <= 1 && RoomToShare(k, t)
  {
    TextCopies(k.mem, t, f);
    EntryForms(f);
    assert !Present(0);
    hide Slot;
  }

  /** A page that process 2 takes with it when it exits. */
  predicate OfChild(r: Role) {
    (r.TablePage? && r.pid == 2) || (r.Private? && r.pid == 2 && r.vpn < 768)
  }

  /** Page `x` after the fork, for the pages that are not shared. */
  predicate ForkTook(i: PageInfo, j: PageInfo, r: Role) {
    if i.refcount == 0 then j.refcount == 0 || OfChild(r) else j == i && !OfChild(r)
  }

  /** Process 1 has just forked: its child has the same view. */
  ghost predicate Pair(s: State, s1: State, tabs: TableMap, tc: Table, r1: Roles, f: nat, n: int) {
    && 1 in tabs && 2 !in tabs && KInv(s1, tabs[2 := tc], r1) && s1.current == 1 && f < 512
    && (forall q :: 0 <= q < 16 ==> s1.procs[q].state == if q == 1 || q == 2 then P_RUNNABLE else P_FREE)
    && s1.procs[2].pagetable == tc.l1
    && (forall u :: 0 <= u < 1024 ==> Slot(s1.vm.mem, tabs[1], u) == Slot(s.vm.mem, tabs[1], u))
    && TextOnly(s1.vm.mem, tc, f)
    && |FreePages(s1.vm.info)| >= 1
    && r1[f] == Shared(256) && s1.vm.info[f] == PageInfo(1, n + 1)
    && (forall x :: 0 <= x < 512 && x != f ==> ForkTook(s.vm.info[x], s1.vm.info[x], r1[x]))
  }

  lemma SecondSlot(procs: Procs)
    requires OnlyRuns(procs, 1)
    ensures FreeSlot(procs, 1) == 2
  {
    assert FreeSlot(procs, 2) == 2;
  }

  lemma ChildText(lay: Layout, k: VM, k1: VM, k': VM, tabs: TableMap, role1: Roles, role': Roles, tc: Table, f: nat)
    requires ForkEffect(lay, k, k1, k', tabs, role1, role', 1, 2, tc) && TextOnly(k.mem, tabs[1], f)
    ensures TextOnly(k'.mem, tc, f)
  {
    hide Full, ReadOnly, Frame, PteFlags, Present, Writable, UserOk;
    EntryForms(f);
    hide ForkEffect, Slot;
    forall u | 256 <= u < 768
      ensures u != 767 ==> Slot(k'.mem, tc, u) == Slot(k.mem, tabs[1], u)
      ensures Slot(k.mem, tabs[1], u) == 0 || Writable(Slot(k.mem, tabs[1], u)) ==>
                Slot(k'.mem, tc, u) == 0 || Writable(Slot(k'.mem, tc, u))
    {
      ChildSlot(lay, k, k1, k', tabs, role1, role', 1, 2, tc, u);
      var g := Frame(Slot(k'.mem, tc, u));
      if g < 512 {
        EntryForms(g);
      }
    }
  }

  lemma ForkTaken(lay: Layout, k: VM, k1: VM, k': VM, tabs: TableMap, role: Roles, role1: Roles, role': Roles,
                  tc: Table, f: nat, x: nat)
    requires ForkEffect(lay, k, k1, k', tabs, role1, role', 1, 2, tc) && TextOnly(k.mem, tabs[1], f)
    requires Inv(lay, k, tabs, role) && tc.Distinct() && role1 == RolesWithTable(role, tc, 2) && x < 512
    ensures x != f ==> ForkTook(k.info[x], k'.info[x], role'[x])
    ensures x == f ==> role'[x] == Shared(256) && k'.info[x] == PageInfo(k.info[x].owner, k.info[x].refcount + 1)
  {
    hide Wired, KernelTableOk, Inv, IsSystem, InitInfo, RolesWithTable, Slot, ForkEffect, ReadOnly, Shares;
    EffectOn(lay, k, k1, k', tabs, role1, role', 1, 2, tc, x);
    RolesTable(role, tc, 2);
    TextSlot(k.mem, tabs[1], f);
    SharedRole(lay, k, tabs, role, 1, 256, f);
    RoleBounds(lay, k, tabs, role, x);
    if role[x].Shared? {
      OneSharedPage(k.mem, tabs[1], f, x, role[x].home);
    }
  }

  lemma OneSharedPage(mem: Memory, t: Table, f: nat, x: nat, u: nat)
    requires TextOnly(mem, t, f) && x < 512 && 256 <= u < 768
    ensures Shares(mem, t, x, u) <==> u == 256 && x == f
  {
    hide Slot, Full, ReadOnly, Frame, PteFlags, Present, Writable, UserOk;
    EntriesDiffer(f, x);
    EntryForms(x);
  }

  lemma ForkPair(s: State, tabs: TableMap, role: Roles, f: nat, n: int) returns (s1: State, tc: Table, r1: Roles)
    requires Alone(s, tabs, role, f, n) && n < 127
    ensures SysFork(s) == Ok(s1) && Pair(s, s1, tabs, tc, r1, f, n)
  {
    hide Inv, FreePages, ToCopy, TextOnly, RoomToShare, ForkEffect, RolesWithTable, TableAt, FreeSlot, SysFork,
         ProcsOk, Slot, ForkTook, CheckVirtualMemory;
    SecondSlot(s.procs);
    TableOfCurrent(s, tabs, role);
    TextGuard(s.vm, tabs[1], f);
    TextSlot(s.vm.mem, tabs[1], f);
    var k1, role1;
    s1, tc, r1, k1, role1 := ForkResult(s, tabs, role);
    ChildText(s.lay, s.vm, k1, s1.vm, tabs, role1, r1, tc, f);
    ParentSlots(s.lay, s.vm, k1, s1.vm, tabs, role1, r1, tc);
    forall x | 0 <= x < 512
      ensures x != f ==> ForkTook(s.vm.info[x], s1.vm.info[x], r1[x])
      ensures x == f ==> r1[x] == Shared(256) && s1.vm.info[x] == PageInfo(s.vm.info[x].owner, n + 1)
    {
      ForkTaken(s.lay, s.vm, k1, s1.vm, tabs, role, role1, r1, tc, f, x);
    }
  }

  lemma ParentSlots(lay: Layout, k: VM, k1: VM, k': VM, tabs: TableMap, role1: Roles, role': Roles, tc: Table)
    requires ForkEffect(lay, k, k1, k', tabs, role1, role', 1, 2, tc)
    ensures forall u :: 0 <= u < 1024 ==> Slot(k'.mem, tabs[1], u) == Slot(k.mem, tabs[1], u)
  {
    assert forall u :: 0 <= u < 1024 ==> Slot(k1.mem, tabs[1], u) == Slot(k.mem, tabs[1], u);
    assert forall u :: 0 <= u < 1024 ==> Slot(k'.mem, tabs[1], u) == Slot(k1.mem, tabs[1], u);
  }

  /** The process's registers, with the argument of a page_alloc put in %rdi. */
  function ArgRegs(s: State, call: Call): Registers
    requires s.current < 16
  {
    var regs := s.procs[s.current].regs;
    if call.PageAlloc? then regs.(rdi := call.addr) else regs
  }

  /** The trap with which the current process makes the call. */
  function TrapOf(s: State, call: Call): Event
    requires s.current < 16
  {
    Trap(ArgRegs(s, call), call)
  }

  /** The state its handler starts from. */
  function AtTrap(s: State, call: Call): State
    requires s.current < 16
  {
    Saved(s, ArgRegs(s, call))
  }

  lemma AtTrapSame(s: State, call: Call)
    requires s.current < 16 && !call.PageAlloc?
    ensures AtTrap(s, call) == s
  {
    assert s.procs[s.current := s.procs[s.current].(regs := s.procs[s.current].regs)] == s.procs;
  }

  /** A trap in a state that passes the self-check runs its handler and returns. */
  lemma Returns(m: Mode, s: State, tabs: TableMap, role: Roles, call: Call, s1: State)
    returns (tabs': TableMap, role': Roles)
    requires MInv(m, s, tabs, role) && s.current < 16 && Allowed(m, s, TrapOf(s, call)) && CheckVirtualMemory(s)
    requires Handle(AtTrap(s, call), call) == Ok(s1)
    ensures var s' := if Reschedules(s1, call) then Dispatch(s1) else s1;
            && Step(s, TrapOf(s, call)) == Ok(s') && MInv(m, s', tabs', role')
            && (CheckVirtualMemory(s') <==> Releases(s, TrapOf(s, call)))
  {
    hide MInv, Allowed, CheckVirtualMemory, Handle, Dispatch, Step, Releases;
    var s2, s';
    s2, s', tabs', role' := TrapKeeps(m, s, tabs, role, TrapOf(s, call));
    CheckAfterStep(m, s, s', tabs, role, TrapOf(s, call));
  }

  lemma ForkReturns(m: Mode, s: State, tabs: TableMap, role: Roles, s1: State) returns (tabs': TableMap, role': Roles)
    requires MInv(m, s, tabs, role) && s.current < 16 && Allowed(m, s, TrapOf(s, Fork)) && CheckVirtualMemory(s)
             && SysFork(s) == Ok(s1)
    requires s1.current < 16 && s1.procs[s1.current].state == P_RUNNABLE
    ensures Moves(m, s, TrapOf(s, Fork), s1) && MInv(m, s1, tabs', role') && CheckVirtualMemory(s1)
  {
    hide MInv, Allowed, CheckVirtualMemory, SysFork, Dispatch, Step;
    AtTrapSame(s, Fork);
    tabs', role' := Returns(m, s, tabs, role, Fork, s1);
  }

  // ---------------------------------------------------- an exit the check rejects

  /** The guard on exits in checked runs is needed: from power-on the program forks
      once and exits, and every trap after that stops the kernel. */
  lemma UncheckedExitFails(lay: Layout, mem: Memory) returns (s: State, s1: State, s2: State)
    requires lay.Valid()
    ensures Initial(s, lay, mem, PROGRAM) && s1.current < 16
            && Run(Tight, [s, s1, s2], [TrapOf(s, Fork), TrapOf(s1, Exit)])
    ensures s2.current == 2 && Stuck(s2)
  {
    hide Initial, Step, MInv, Alone, SysFork, SysExit, TrapOf, Moves, Stuck, CheckVirtualMemory;
    var tabs, role, f;
    s, tabs, role, f := Start(lay, mem);
    CheckedIsTight(s, tabs, role);
    s1, s2 := ForkThenExit(s, tabs, role, f);
  }

  /** The running process can trap no more: the self-check fails. */
  ghost predicate Stuck(s: State) {
    && !CheckVirtualMemory(s) && s.current < 16 && s.procs[s.current].state == P_RUNNABLE
    && forall e: Event :: Enabled(s, e) && e.Trap? ==> Step(s, e).Panic?
  }

  lemma ForkThenExit(s: State, tabs: TableMap, role: Roles, f: nat) returns (s1: State, s2: State)
    requires Alone(s, tabs, role, f, 1) && MInv(Tight, s, tabs, role)
    ensures s.current < 16 && s1.current < 16 && Moves(Tight, s, TrapOf(s, Fork), s1)
            && Moves(Tight, s1, TrapOf(s1, Exit), s2)
    ensures s2.current == 2 && Stuck(s2)
  {
    hide Alone, Allowed, Step, MInv, CheckVirtualMemory, KInv, SysFork, SysExit, TextOnly, FreePages, TrapOf,
         ExitReleases, ForkTook, Slot, Stuck;
    AloneRuns(s, tabs, role, f, 1);
    var tc, r1;
    s1, tc, r1 := ForkPair(s, tabs, role, f, 1);
    ForkAllowed(Tight, s, tabs, role, f, 1);
    var tabs1, role1 := ForkReturns(Tight, s, tabs, role, s1);
    s2 := SysExit(s1).(current := 2);
    var tabs2, role2 := ExitReturns(Tight, s1, tabs1, role1, 1, 2);
    TwoReferences(s1, f);
    NoWayOut(s2, tabs2, role2);
  }

  lemma NoWayOut(s: State, tabs: TableMap, role: Roles)
    requires MInv(Tight, s, tabs, role) && !CheckVirtualMemory(s) && OnlyRuns(s.procs, s.current)
    ensures Stuck(s)
  {
    TightIsConsistent(s, tabs, role);
    hide MInv, KInv, CheckVirtualMemory, Step;
    forall e: Event | Enabled(s, e) && e.Trap? ensures Step(s, e).Panic? {
      TrapPanicsIff(s, tabs, role, e);
    }
  }

  lemma CheckedIsTight(s: State, tabs: TableMap, role: Roles)
    requires MInv(Checked, s, tabs, role)
    ensures MInv(Tight, s, tabs, role)
  {
    hide KInv, Exact, Owned;
  }

  lemma TightIsConsistent(s: State, tabs: TableMap, role: Roles)
    requires MInv(Tight, s, tabs, role)
    ensures KInv(s, tabs, role)
  {
    hide KInv, Exact, Owned;
  }

  lemma TwoReferences(s: State, f: nat)
    requires f < 512 && s.vm.info[f] == PageInfo(1, 2)
    ensures !ExitReleases(s, 1, f)
  {
    hide Found;
  }

  /** Processes `p` and `q` can run, `p` exits, so `q` does. */
  lemma ExitReturns(m: Mode, s: State, tabs: TableMap, role: Roles, p: nat, q: nat)
    returns (tabs': TableMap, role': Roles)
    requires MInv(m, s, tabs, role) && m != Checked && CheckVirtualMemory(s) && s.current == p && p != q && p < 16
             && q < 16
    requires forall r :: 0 <= r < 16 ==> s.procs[r].state == if r == p || r == q then P_RUNNABLE else P_FREE
    ensures var s' := SysExit(s).(current := q);
            && Allowed(m, s, TrapOf(s, Exit)) && Step(s, TrapOf(s, Exit)) == Ok(s') && OnlyRuns(s'.procs, q)
              && MInv(m, s', tabs', role')
            && (CheckVirtualMemory(s') <==> forall x: nat :: x < 512 ==> ExitReleases(s, p, x))
  {
    hide MInv, CheckVirtualMemory, ExitSpace, TableAt, NextRunnable, Step, ExitReleases;
    var s' := SysExit(s);
    ScheduleMeaning(s'.procs, p);
    assert Runnable(s'.procs, q);
    AtTrapSame(s, Exit);
    tabs', role' := Returns(m, s, tabs, role, Exit, s');
  }

  /** Pages with two references are not the only ones: a rejected page_alloc leaves a
      page that exit does not find, although the process owns no page twice. */
  lemma LostPageExitFails(lay: Layout, mem: Memory) returns (s: State, s1: State)
    requires lay.Valid()
    ensures Initial(s, lay, mem, PROGRAM) && Run(Loose, [s, s1], [TrapOf(s, PageAlloc(0))])
    ensures s1.current == 1 && CheckVirtualMemory(s1) && !CheckVirtualMemory(SysExit(s1))
    ensures forall x :: 0 <= x < 512 && s1.vm.info[x].owner == 1 ==> s1.vm.info[x].refcount < 2
  {
    hide Initial, Alone, Step, MInv, CheckVirtualMemory, SysExit, TrapOf, Moves, KInv, FreePages;
    var tabs, role, f;
    s, tabs, role, f := Start(lay, mem);
    AloneRuns(s, tabs, role, f, 1);
    AloneProcs(s, tabs, role, f, 1);
    AloneOnce(s, tabs, role);
    var g;
    s1, g := RejectedRequest(s, tabs, role);
    RejectedMoves(s, tabs, role, s1);
    hide ExitReleases;
    ExitCheckIff(s1, tabs, role[g := Lost]);
    NotFound(s1, tabs, role[g := Lost], g);
  }

  lemma AloneProcs(s: State, tabs: TableMap, role: Roles, f: nat, n: int)
    requires Alone(s, tabs, role, f, n)
    ensures KInv(s, tabs, role) && OnlyRuns(s.procs, 1) && Live(s, 1) && |FreePages(s.vm.info)| >= 7
  {
    hide KInv, TextOnly, CheckVirtualMemory, FreePages;
  }

  lemma RejectedMoves(s: State, tabs: TableMap, role: Roles, s1: State)
    requires MInv(Loose, s, tabs, role) && CheckVirtualMemory(s) && s.current == 1 && s.procs[1].state == P_RUNNABLE
    requires Handle(AtTrap(s, PageAlloc(0)), PageAlloc(0)) == Ok(s1) && s1.procs[1].state == P_RUNNABLE
    ensures Moves(Loose, s, TrapOf(s, PageAlloc(0)), s1) && CheckVirtualMemory(s1)
  {
    hide MInv, CheckVirtualMemory, Handle, Step, Dispatch, Allowed;
    PageZeroAllowed(s);
    var tabs1, role1 := Returns(Loose, s, tabs, role, PageAlloc(0), s1);
  }

  lemma PageZeroAllowed(s: State)
    requires s.current == 1 && s.procs[1].state == P_RUNNABLE
    ensures Allowed(Loose, s, TrapOf(s, PageAlloc(0)))
  {
    hide TableAt;
  }

  lemma RejectedRequest(s: State, tabs: TableMap, role: Roles) returns (s1: State, g: nat)
    requires KInv(s, tabs, role) && s.current == 1 && Live(s, 1) && s.procs[1].state == P_RUNNABLE
             && |FreePages(s.vm.info)| >= 7
    ensures Handle(AtTrap(s, PageAlloc(0)), PageAlloc(0)) == Ok(s1) && g < 512
            && s1.vm.info == s.vm.info[g := PageInfo(1, 1)]
    ensures s1.current == 1 && s1.procs[1].state == P_RUNNABLE && KInv(s1, tabs, role[g := Lost])
  {
    AllocTakes(s.vm.info, 1);
    hide Inv, Exact, Owned, FindFree, FreePages, MapPage;
    g := FindFree(s.vm.info, 1);
    TakeLost(s.lay, s.vm, tabs, role, 1, g);
    s1 := Handle(AtTrap(s, PageAlloc(0)), PageAlloc(0)).value;
    SameProcs(s, s1, tabs);
  }

  lemma NotFound(s: State, tabs: TableMap, role: Roles, g: nat)
    requires KInv(s, tabs, role) && Live(s, 1) && g < 512 && role[g] == Lost && s.vm.info[g] == PageInfo(1, 1)
    ensures !ExitReleases(s, 1, g)
  {
    ZeroSystem(s, tabs, role);
    hide KInv, Found;
    FoundByRole(s, tabs, role, 1, g);
  }

  /** While process 1 runs alone no page has two references. */
  lemma AloneOnce(s: State, tabs: TableMap, role: Roles)
    requires MInv(Checked, s, tabs, role) && OnlyRuns(s.procs, 1)
    ensures forall x :: 0 <= x < 512 ==> s.vm.info[x].refcount < 2
  {
    forall x | 0 <= x < 512 ensures s.vm.info[x].refcount < 2 {
      assert PageOk(s.lay, s.vm, tabs, role, x) && ExactAt(s.vm, tabs, role, x);
      hide Inv, Exact, Owned, Slot;
      if role[x].Shared? {
        var a := Sharers(s.vm.mem, tabs, x, role[x].home);
        forall q | q in a ensures q == 1 {
          assert q in tabs <==> Live(s, q);
        }
        SubsetCard(a, {1});
      }
    }
  }

  lemma ForkAllowed(m: Mode, s: State, tabs: TableMap, role: Roles, f: nat, n: int)
    requires Alone(s, tabs, role, f, n) && n < 127
    ensures Allowed(m, s, TrapOf(s, Fork))
  {
    hide FreePages, ToCopy, TextOnly, RoomToShare, TableAt, FreeSlot, Slot, Inv, CheckVirtualMemory;
    SecondSlot(s.procs);
    TableOfCurrent(s, tabs, role);
    TextGuard(s.vm, tabs[1], f);
  }

  // ------------------------------------------------------------ a count that leaks

  lemma YieldToChild(s: State, tabs: TableMap, s1: State, tc: Table, r1: Roles, f: nat, n: int)
    requires Pair(s, s1, tabs, tc, r1, f, n) && CheckVirtualMemory(s1)
    ensures var s2 := s1.(current := 2);
            Moves(Loose, s1, TrapOf(s1, Yield), s2) && MInv(Loose, s2, tabs[2 := tc], r1) && CheckVirtualMemory(s2)
  {
    hide Inv, TextOnly, FreePages, Step, ForkTook, CheckVirtualMemory, TableAt, Slot, Exact, Owned;
    assert NextRunnable(s1.procs, 1, 16) == 2;
    SameSpaces(Loose, s1, s1.(current := 2), tabs[2 := tc], r1);
    CheckSame(s1, s1.(current := 2));
    AtTrapSame(s1, Yield);
    var tabs', role' := Returns(Loose, s1, tabs[2 := tc], r1, Yield, s1);
  }

  /** page_alloc over the read-only page: the old page is not released. */
  lemma Overmap(lay: Layout, k: VM, tabs: TableMap, role: Roles, f: nat) returns (k': VM, g: nat, role': Roles)
    requires Inv(lay, k, tabs, role) && 2 in tabs && TextOnly(k.mem, tabs[2], f) && |FreePages(k.info)| >= 1
    ensures AllocAt(k, tabs[2].l1, 2, 0x10_0000) == Ok((k', 0)) && Inv(lay, k', tabs, role')
    ensures g < 512 && k.info[g].refcount == 0 && k'.info == k.info[g := PageInfo(2, 1)]
            && role' == role[g := Private(2, 256)]
    ensures SlotUpdated(lay, k.mem, k'.mem, tabs, 2, 256, Full(g))
  {
    hide Inv, Slot, AllocAt, Wired, WriteSlot, FindFree, FreePages, SlotUpdated, Full, RolesAfterMap, TextOnly, Exact,
         Owned;
    g := SomeFree(k.info);
    LiveWired(lay, k, tabs, role, 2);
    PageAllocForm(k, tabs[2], 2, 0x10_0000, g, k.info[g := PageInfo(2, 1)]);
    SlotWrite(lay, k, tabs, role, 2, 256, Full(g));
    k' := VM(WriteSlot(k.mem, tabs[2], 256, Full(g)), k.info[g := PageInfo(2, 1)]);
    MapFresh(lay, k, k', tabs, role, 2, 256, g);
    TextSlot(k.mem, tabs[2], f);
    RolesAtReadOnly(k.mem, tabs, role, 2, 256, f, g);
    role' := role[g := Private(2, 256)];
  }

  lemma SomeFree(info: Info) returns (g: nat)
    requires |FreePages(info)| >= 1
    ensures g == FindFree(info, 1) < 512 && info[g].refcount == 0
  {
    AllocTakes(info, 0);
    g := FindFree(info, 1);
  }

  /** Nothing private is lost when a read-only page is mapped over. */
  lemma RolesAtReadOnly(mem: Memory, tabs: TableMap, role: Roles, p: int, v: nat, f: nat, g: nat)
    requires p in tabs && v < 1024 && f < 512 && g < 512 && Slot(mem, tabs[p], v) == ReadOnly(f)
    ensures RolesAfterMap(mem, tabs, role, p, v, g) == role[g := Private(p, v)]
  {
    hide Full, ReadOnly, Frame, PteFlags, Present, Writable, UserOk;
    EntryForms(f);
    hide Slot;
  }

  /** The record of page `x` after a round: the count of `f` is one higher. */
  predicate Leaked(i: PageInfo, j: PageInfo, leaks: bool) {
    if leaks then j == PageInfo(i.owner, i.refcount + 1)
    else j.refcount == i.refcount && (i.refcount != 0 ==> j == i)
  }

  /** Records after the child exits: only the count of `f` has changed. */
  lemma LeftBehind(lay: Layout, s: State, s1: State, k: VM, tabs: TableMap, tc: Table, r1: Roles, f: nat, n: int,
                   g: nat, x: nat)
    requires Pair(s, s1, tabs, tc, r1, f, n) && x < 512 && g < 512 && s1.vm.info[g].refcount == 0
             && s.vm.info[f] == PageInfo(1, n)
    requires k.info == s1.vm.info[g := PageInfo(2, 1)]
             && SlotUpdated(lay, s1.vm.mem, k.mem, tabs[2 := tc], 2, 256, Full(g))
    requires 1 <= n
    ensures Leaked(s.vm.info[x], Exited(k, tc, r1[g := Private(2, 256)], 2, x, 768), x == f)
  {
    hide Inv, ProcsOk, SlotUpdated, Slot, TextOnly, FreePages, Shares, Full;
    RoleBounds(s1.lay, s1.vm, tabs[2 := tc], r1, x);
    if r1[x].Shared? {
      OneSharedPage(s1.vm.mem, tc, f, x, r1[x].home);
      NotShared(lay, s1.vm.mem, k.mem, tabs, tc, g, f, x, r1[x].home);
    }
  }

  lemma NotShared(lay: Layout, mem: Memory, m: Memory, tabs: TableMap, tc: Table, g: nat, f: nat, x: nat, u: nat)
    requires g < 512 && x < 512 && 256 <= u < 768 && SlotUpdated(lay, mem, m, tabs[2 := tc], 2, 256, Full(g))
    requires Shares(mem, tc, x, u) <==> u == 256 && x == f
    ensures !Shares(m, tc, x, u)
  {
    hide Full, ReadOnly, Frame, PteFlags, Present, Writable, UserOk;
    EntryForms(g);
    EntryForms(x);
    assert tabs[2 := tc][2] == tc;
    hide Slot, Wired, KernelTableOk;
  }

  /** What the child leaves on record to it, its exit releases. */
  lemma ChildReleases(s: State, s1: State, s3: State, tabs: TableMap, role: Roles, tc: Table, r1: Roles, f: nat,
                      n: int, g: nat, x: nat)
    requires Alone(s, tabs, role, f, n) && Pair(s, s1, tabs, tc, r1, f, n) && x < 512
    requires g < 512 && s3.vm.info == s1.vm.info[g := PageInfo(2, 1)]
             && KInv(s3, tabs[2 := tc], r1[g := Private(2, 256)]) && Live(s3, 2)
    ensures ExitReleases(s3, 2, x)
  {
    OthersOwned(s, tabs, role, f, n, x);
    hide Alone, Inv, ProcsOk, Slot, TextOnly, FreePages, Shares, Found;
    ZeroSystem(s3, tabs[2 := tc], r1[g := Private(2, 256)]);
    ChildCount(s1, tabs[2 := tc], r1, x);
    if x > 0 {
      FoundByRole(s3, tabs[2 := tc], r1[g := Private(2, 256)], 2, x);
    }
    SystemRecord(s3, tabs[2 := tc], r1[g := Private(2, 256)], x);
  }

  /** Before the fork nothing in use is on record to process 2. */
  lemma OthersOwned(s: State, tabs: TableMap, role: Roles, f: nat, n: int, x: nat)
    requires Alone(s, tabs, role, f, n) && x < 512
    ensures s.vm.info[x].refcount != 0 ==> s.vm.info[x].refcount > 0 && s.vm.info[x].owner != 2
  {
    PositiveCounts(s, tabs, role, x);
    hide KInv, TextOnly, FreePages, ProcessOk, MappingsOk, OwnershipOk, KernelUsers;
    assert RecordOk(s, x);
  }

  lemma ChildCount(s: State, tabs: TableMap, role: Roles, x: nat)
    requires KInv(s, tabs, role) && x < 512
    ensures OfChild(role[x]) ==> s.vm.info[x] == PageInfo(2, 1)
  {
    assert PageOk(s.lay, s.vm, tabs, role, x);
    hide Inv, Slot;
  }

  lemma SystemRecord(s: State, tabs: TableMap, role: Roles, x: nat)
    requires KInv(s, tabs, role) && x < 512
    ensures role[x] == System ==> s.vm.info[x].owner < 0
  {
    assert PageOk(s.lay, s.vm, tabs, role, x);
    hide Inv, Slot;
  }

  /** The child's exit, then schedule. */
  lemma ExitToParent(s: State, s1: State, s3: State, tabs: TableMap, role: Roles, tc: Table, r1: Roles, f: nat,
                     n: int, g: nat)
    returns (s4: State, role': Roles)
    requires Alone(s, tabs, role, f, n) && Pair(s, s1, tabs, tc, r1, f, n) && 1 <= n
    requires g < 512 && s1.vm.info[g].refcount == 0 && s3.vm.info == s1.vm.info[g := PageInfo(2, 1)] && s3.lay == s1.lay
    requires SlotUpdated(s1.lay, s1.vm.mem, s3.vm.mem, tabs[2 := tc], 2, 256, Full(g))
    requires Inv(s3.lay, s3.vm, tabs[2 := tc], r1[g := Private(2, 256)]) && s3.current == 2 && CheckVirtualMemory(s3)
    requires forall q :: 0 <= q < 16 ==>
               s3.procs[q].state == s1.procs[q].state && s3.procs[q].pagetable == s1.procs[q].pagetable
    ensures Moves(Loose, s3, TrapOf(s3, Exit), s4) && Alone(s4, tabs, role', f, n + 1) && Round(s, s4, tabs[1], f)
  {
    hide Inv, Slot, Wired, TextOnly, FreePages, Exited, ExitSpace, KernelTableOk, RolesAfterExit, ExitedTo,
         OutlivesOwner, Exact, Owned, ForkTook, CheckVirtualMemory, ExitReleases, Leaked, Allowed, Step, SlotUpdated,
         Full;
    var tabs1, r3 := tabs[2 := tc], r1[g := Private(2, 256)];
    SameProcs(s1, s3, tabs1);
    ExitKeeps(s3.lay, s3.vm, tabs1, r3, 2);
    ExitForm(s3.lay, s3.vm, tabs1, r3, 2);
    ExitProcs(s3, tabs1);
    assert tabs1 - {2} == tabs;
    role' := RolesAfterExit(s3.vm, tc, r3, 2);
    forall x: nat | x < 512 ensures ExitReleases(s3, 2, x) {
      ChildReleases(s, s1, s3, tabs, role, tc, r1, f, n, g, x);
    }
    var tabs', r' := ExitReturns(Loose, s3, tabs1, r3, 2, 1);
    ExitVm(s3);
    var s' := SysExit(s3);
    s4 := s'.(current := 1);
    hide ProcsOk, SysExit;
    SameProcs(s', s4, tabs);
    forall x | 0 <= x < 512 ensures Leaked(s.vm.info[x], s'.vm.info[x], x == f) {
      LeftBehind(s1.lay, s, s1, s3.vm, tabs, tc, r1, f, n, g, x);
    }
    SameFree(s.vm.info, s'.vm.info, f, n);
    LeakedCount(s.vm.info, s'.vm.info, f);
    ParentKept(s1.lay, s1.vm.mem, s3.vm.mem, tabs, tc, g);
    TextKept(s.vm.mem, s3.vm.mem, tabs[1], f);
  }

  /** What a whole round does: the count of `f` is one higher; every other count, every
      record in use and every mapping of process 1 is as before. */
  ghost predicate Round(s: State, s': State, t: Table, f: nat) {
    && (forall x :: 0 <= x < 512 ==> Leaked(s.vm.info[x], s'.vm.info[x], x == f))
    && (forall u :: 0 <= u < 1024 ==> Slot(s'.vm.mem, t, u) == Slot(s.vm.mem, t, u))
  }

  lemma ParentKept(lay: Layout, mem: Memory, m: Memory, tabs: TableMap, tc: Table, g: nat)
    requires 1 in tabs && g < 512 && SlotUpdated(lay, mem, m, tabs[2 := tc], 2, 256, Full(g))
    ensures forall u :: 0 <= u < 1024 ==> Slot(m, tabs[1], u) == Slot(mem, tabs[1], u)
  {
    assert tabs[2 := tc][1] == tabs[1];
    hide Slot, Wired, KernelTableOk;
  }

  lemma SameProcs(s: State, s': State, tabs: TableMap)
    requires ProcsOk(s, tabs) && s'.current < 16
    requires forall q :: 0 <= q < 16 ==>
               s'.procs[q].state == s.procs[q].state && s'.procs[q].pagetable == s.procs[q].pagetable
    ensures ProcsOk(s', tabs)
  {
    assert forall q :: Live(s', q) <==> Live(s, q);
  }

  lemma LeakedCount(i: Info, j: Info, f: nat)
    requires f < 512 && Leaked(i[f], j[f], true)
    ensures j[f] == PageInfo(i[f].owner, i[f].refcount + 1)
  {
  }

  lemma SameFree(i: Info, j: Info, f: nat, n: int)
    requires f < 512 && i[f].refcount == n && 1 <= n && forall x :: 0 <= x < 512 ==> Leaked(i[x], j[x], x == f)
    ensures FreePages(j) == FreePages(i)
  {
    forall x: nat | x < 512 ensures j[x].refcount == 0 <==> i[x].refcount == 0 {
      assert Leaked(i[x], j[x], x == f);
    }
  }

  lemma TextKept(mem: Memory, m: Memory, t: Table, f: nat)
    requires TextOnly(mem, t, f) && forall u :: 0 <= u < 1024 ==> Slot(m, t, u) == Slot(mem, t, u)
    ensures TextOnly(m, t, f)
  {
    hide Slot;
  }

  /** Fork; the child replaces the shared page by page_alloc and exits. The self-check
      passes throughout, and nothing remains of the round but a higher count. */
  lemma LeakRound(s: State, tabs: TableMap, role: Roles, f: nat, n: int)
    returns (ss: seq<State>, es: seq<Event>, role': Roles)
    requires Alone(s, tabs, role, f, n) && 1 <= n < 127
    ensures Run(Loose, ss, es) && |es| == 4 && ss[0] == s && Alone(ss[4], tabs, role', f, n + 1)
            && Round(s, ss[4], tabs[1], f)
    ensures forall i :: 0 <= i < |ss| ==> CheckVirtualMemory(ss[i])
  {
    hide Alone, Allowed, SysFork, TextOnly, FreePages, Inv, Slot, SlotUpdated, AllocAt, TrapOf, ForkTook, ProcsOk,
         Moves, CheckVirtualMemory, Round, Exact, Owned, Full;
    AloneRuns(s, tabs, role, f, n);
    var s1, tc, r1 := ForkPair(s, tabs, role, f, n);
    ForkAllowed(Loose, s, tabs, role, f, n);
    var t1, q1 := ForkReturns(Loose, s, tabs, role, s1);
    YieldToChild(s, tabs, s1, tc, r1, f, n);
    var s2 := s1.(current := 2);
    var k3, g, r3 := Overmap(s1.lay, s1.vm, tabs[2 := tc], r1, f);
    var s3 := OvermapStep(s2, tabs[2 := tc], r1, k3);
    var s4;
    s4, role' := ExitToParent(s, s1, s3, tabs, role, tc, r1, f, n, g);
    AloneRuns(s4, tabs, role', f, n + 1);
    ss, es := [s, s1, s2, s3, s4],
      [TrapOf(s, Fork), TrapOf(s1, Yield), TrapOf(s2, PageAlloc(0x10_0000)), TrapOf(s3, Exit)];
  }

  lemma AloneRuns(s: State, tabs: TableMap, role: Roles, f: nat, n: int)
    requires Alone(s, tabs, role, f, n)
    ensures s.current == 1 && s.procs[1].state == P_RUNNABLE && 1 in tabs && MInv(Loose, s, tabs, role)
            && CheckVirtualMemory(s)
  {
    hide KInv, TextOnly, FreePages, CheckVirtualMemory, Exact, Owned;
  }

  lemma OvermapStep(s: State, tabs: TableMap, role: Roles, k: VM) returns (s': State)
    requires MInv(Loose, s, tabs, role) && CheckVirtualMemory(s)
    requires s.current == 2 && s.procs[2].state == P_RUNNABLE
             && AllocAt(s.vm, s.procs[2].pagetable, 2, 0x10_0000) == Ok((k, 0))
    ensures Moves(Loose, s, TrapOf(s, PageAlloc(0x10_0000)), s') && CheckVirtualMemory(s')
    ensures s'.vm == k && s'.lay == s.lay && s'.current == 2
    ensures forall q :: 0 <= q < 16 ==>
              s'.procs[q].state == s.procs[q].state && s'.procs[q].pagetable == s.procs[q].pagetable
  {
    hide AllocAt, TableAt, Step, MInv, CheckVirtualMemory;
    s' := SysPageAlloc(AtTrap(s, PageAlloc(0x10_0000)), 0x10_0000).value;
    var tabs', role' := Returns(Loose, s, tabs, role, PageAlloc(0x10_0000), s');
  }

  lemma RunsJoin(m: Mode, ss: seq<State>, es: seq<Event>, ts: seq<State>, fs: seq<Event>)
    requires Run(m, ss, es) && Run(m, ts, fs) && ss[|es|] == ts[0]
    ensures Run(m, ss + ts[1..], es + fs) && (ss + ts[1..])[|es| + |fs|] == ts[|fs|]
  {
    hide Moves;
    var us, gs := ss + ts[1..], es + fs;
    forall i | 0 <= i < |gs| ensures Moves(m, us[i], gs[i], us[i + 1]) {
      if i >= |es| {
        var j := i - |es|;
        assert us[i] == ts[j] && us[i + 1] == ts[j + 1] && gs[i] == fs[j];
      }
    }
  }

  /** Round after round, up to any count the record can hold. */
  lemma {:induction false} LeakTo(s: State, tabs: TableMap, role: Roles, f: nat, n: int, last: int)
    returns (ss: seq<State>, es: seq<Event>, role': Roles)
    requires Alone(s, tabs, role, f, n) && 1 <= n <= last <= 127
    ensures Run(Loose, ss, es) && ss[0] == s && Alone(ss[|es|], tabs, role', f, last) && AllPass(ss)
    decreases last - n
  {
    hide Alone, Run, AllPass, Round;
    if n == last {
      OnePass(s, tabs, role, f, n);
      return [s], [], role;
    }
    AloneRuns(s, tabs, role, f, n);
    var ts, fs, r1 := LeakRound(s, tabs, role, f, n);
    RunLength(ts, fs);
    var us, gs;
    us, gs, role' := LeakTo(ts[4], tabs, r1, f, n + 1, last);
    RunLength(us, gs);
    RunsJoin(Loose, ts, fs, us, gs);
    PassJoin(ts, us);
    return ts + us[1..], fs + gs, role';
  }

  ghost predicate AllPass(ss: seq<State>) {
    forall i :: 0 <= i < |ss| ==> CheckVirtualMemory(ss[i])
  }

  lemma PassJoin(ss: seq<State>, ts: seq<State>)
    requires |ts| > 0 && AllPass(ts) && forall i :: 0 <= i < |ss| ==> CheckVirtualMemory(ss[i])
    ensures AllPass(ss + ts[1..])
  {
    hide CheckVirtualMemory;
  }

  lemma OnePass(s: State, tabs: TableMap, role: Roles, f: nat, n: int)
    requires Alone(s, tabs, role, f, n)
    ensures Run(Loose, [s], []) && AllPass([s])
  {
    hide KInv, CheckVirtualMemory;
  }

  lemma RunLength(ss: seq<State>, es: seq<Event>)
    requires Run(Loose, ss, es)
    ensures |ss| == |es| + 1
  {
    hide Moves;
  }

  /** Without room in the counts the promise fails on a run from power-on in which
      every self-check passes: after 126 such rounds one more fork, with memory to
      spare, turns the count of a page that live processes map into -128. */
  lemma CountWrapsInARun(lay: Layout, mem: Memory) returns (ss: seq<State>, es: seq<Event>, s': State, f: nat)
    requires lay.Valid()
    ensures Run(Loose, ss, es) && Initial(ss[0], lay, mem, PROGRAM) && AllPass(ss)
    ensures Wraps(ss[|es|], s', f)
  {
    hide Initial, Run, MInv, Alone, AllPass, Wraps;
    var s, tabs, role;
    s, tabs, role, f := Start(lay, mem);
    var role';
    ss, es, role' := LeakTo(s, tabs, role, f, 1, 127);
    RunLength(ss, es);
    s' := WrappingFork(ss[|es|], tabs, role', f);
  }

  /** Process 1 forks, with enough memory, and the user page `f`, which it still maps,
      comes out with a negative count. */
  ghost predicate Wraps(s: State, s': State, f: nat) {
    && s.current == 1 && s.procs[1].state == P_RUNNABLE && HasMemory(s.vm, TablesOf(s, 1))
    && Step(s, TrapOf(s, Fork)) == Ok(s')
    && f < 512 && !IsSystem(s'.lay, f) && s'.vm.info[f].refcount == -128
    && MapRef(1, 256) in MapRefs(s', f) && !CountCovers(s', f)
  }

  lemma WrappingFork(s: State, tabs: TableMap, role: Roles, f: nat) returns (s': State)
    requires Alone(s, tabs, role, f, 127)
    ensures Wraps(s, s', f)
  {
    hide Alone, HasMemory, TablesOf, Step, IsSystem, CountCovers, MapRefs, SysFork;
    AloneRuns(s, tabs, role, f, 127);
    s' := ForkResultWraps(s, tabs, role, f);
    WrappingStep(s, s', tabs, role, f);
  }

  /** The kernel completes that fork. */
  lemma WrappingStep(s: State, s': State, tabs: TableMap, role: Roles, f: nat)
    requires Alone(s, tabs, role, f, 127) && SysFork(s) == Ok(s')
    ensures s.current == 1 && Step(s, TrapOf(s, Fork)) == Ok(s')
  {
    hide Alone, MInv, SysFork, CheckVirtualMemory, RunCurrent, Step, KInv;
    AloneRuns(s, tabs, role, f, 127);
    AloneProcs(s, tabs, role, f, 127);
    EntryChecks(s, tabs, role, s.procs[1].regs, Fork);
    ForkRuns(s, s', tabs, role, f);
    ForkLeaves(s, s');
  }

  lemma ForkLeaves(s: State, s': State)
    requires s.current == 1 && s.procs[1].state == P_RUNNABLE
             && Trapped(s, s.procs[1].regs, Fork) == Handle(Saved(s, s.procs[1].regs), Fork)
    requires SysFork(s) == Ok(s') && s'.current == 1 && s'.procs[1].state == P_RUNNABLE && RunCurrent(s') == Ok(s')
    ensures Step(s, TrapOf(s, Fork)) == Ok(s')
  {
    hide SysFork, Trapped, RunCurrent, Dispatch;
    AtTrapSame(s, Fork);
  }

  lemma ForkRuns(s: State, s': State, tabs: TableMap, role: Roles, f: nat)
    requires Alone(s, tabs, role, f, 127) && SysFork(s) == Ok(s')
    ensures s'.current == 1 && s'.procs[1].state == P_RUNNABLE && RunCurrent(s') == Ok(s')
  {
    hide Inv, TextOnly, FreePages, CheckVirtualMemory, SysFork, FreeSlot, RunCurrent, ProcsOk;
    SecondSlot(s.procs);
    AloneRuns(s, tabs, role, f, 127);
    ForkPanicsIff(s, tabs, role);
  }

  lemma ForkResultWraps(s: State, tabs: TableMap, role: Roles, f: nat) returns (s': State)
    requires Alone(s, tabs, role, f, 127)
    ensures s.current == 1 && HasMemory(s.vm, TablesOf(s, 1)) && SysFork(s) == Ok(s')
    ensures f < 512 && !IsSystem(s'.lay, f) && s'.vm.info[f].refcount == -128 && MapRef(1, 256) in MapRefs(s', f)
            && !CountCovers(s', f)
  {
    hide Inv, Slot, FreePages, ToCopy, TextOnly, TableAt, FreeSlot, SysFork, ForkSpace, IsSystem, Lookup, Decode,
         ProcsOk, CheckVirtualMemory;
    SecondSlot(s.procs);
    FreshSlot(s, tabs);
    TableOfCurrent(s, tabs, role);
    TextCopies(s.vm.mem, tabs[1], f);
    TextSlot(s.vm.mem, tabs[1], f);
    var k', root, _ := ForkWraps(s.lay, s.vm, tabs, role, 1, 2);
    ForkVm(s, k', root);
    s' := SysFork(s).value;
    UserPage(s.lay, s.vm, tabs, role, f);
    StillMapped(s, s', tabs, role, f);
    NegativeCount(s', f);
  }

  lemma UserPage(lay: Layout, k: VM, tabs: TableMap, role: Roles, f: nat)
    requires Inv(lay, k, tabs, role) && 1 in tabs && f < 512 && Slot(k.mem, tabs[1], 256) == ReadOnly(f)
    ensures !IsSystem(lay, f) && f != 0
  {
    SharedRole(lay, k, tabs, role, 1, 256, f);
    assert PageOk(lay, k, tabs, role, f);
    hide Inv, Slot;
  }

  lemma StillMapped(s: State, s': State, tabs: TableMap, role: Roles, f: nat)
    requires 1 in tabs && f < 512 && f != 0 && s'.procs[1].pagetable == tabs[1].l1 && Live(s', 1)
    requires Wired(s'.vm.mem, tabs[1]) && Slot(s'.vm.mem, tabs[1], 256) == ReadOnly(f)
    ensures MapRef(1, 256) in MapRefs(s', f)
  {
    hide Wired, Slot, Lookup, Decode;
    UserLookup(s'.vm.mem, tabs[1], 256);
    DecodeForms(f);
    assert PageBehind(s', 1, 256) == f;
  }
}
