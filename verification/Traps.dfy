/** What the traps of a process do to it: which registers it finds when it runs again,
    what the call returns in %rax, and which process runs next. */
module Traps {
  import opened X86
  import opened Paging
  import opened Tables
  import opened Spaces
  import opened Alloc
  import opened Forks
  import opened Exits
  import opened Activation
  import opened Kernel
  import opened Steps
  import opened Properties
  import opened Scheduler

  // --------------------------------------------------------------- statements

  /** -1 in a 64-bit register. */
  const MINUS_ONE: Word := 0xFFFF_FFFF_FFFF_FFFF

  /** `c` is the first free process slot, slot 0 apart. */
  predicate FirstFree(procs: Procs, c: nat) {
    1 <= c < 16 && procs[c].state == P_FREE && forall j :: 1 <= j < c ==> procs[j].state != P_FREE
  }

  predicate SomePageFree(info: Info) {
    exists f :: 1 <= f < 512 && info[f].refcount == 0
  }

  /** The process's registers after a trap that saved `regs`. */
  ghost predicate Answer(s: State, regs: Registers, call: Call, after: Registers)
    requires s.current < 16
  {
    match call
    case GetPid => after == regs.(rax := s.current)
    case PageAlloc(addr) =>
      after == regs.(rax := if PROC_START_ADDR <= addr && SomePageFree(s.vm.info) then 0 else MINUS_ONE)
    case Fork =>
      && (forall c: nat :: FirstFree(s.procs, c) ==> after == regs.(rax := c))
      && ((forall c: nat :: !FirstFree(s.procs, c)) ==> after == regs.(rax := MINUS_ONE))
    case Yield => after == regs
    case Timer => after == regs
    case Exit => after == regs
    case PageFault => after == regs
  }

  function StateAfter(call: Call): ProcState {
    match call
    case Exit => P_FREE
    case PageFault => P_BROKEN
    case _ => P_RUNNABLE
  }

  /** Every other process is as it was, but for the child of a fork. */
  ghost predicate OthersKept(s: State, regs: Registers, call: Call, s': State)
    requires s.current < 16
  {
    forall q :: 0 <= q < 16 && q != s.current ==>
      if call == Fork && FirstFree(s.procs, q) then
        s'.procs[q].state == P_RUNNABLE && s'.procs[q].regs == regs.(rax := 0)
      else
        s'.procs[q] == s.procs[q]
  }

  /** Which process runs next. Nothing changes if none can. */
  ghost predicate RunsNext(s: State, call: Call, s': State)
    requires s.current < 16
  {
    if call == Yield || call == Timer || call == Exit || call == PageFault then
      if exists r :: Runnable(s'.procs, r) then CyclicNext(s'.procs, s.current, s'.current) else s'.current == s.current
    else
      s'.current == s.current
  }

  ghost predicate TrapEffect(s: State, regs: Registers, call: Call, s': State) {
    && s.current < 16 && s'.lay == s.lay
    && Answer(s, regs, call, s'.procs[s.current].regs)
    && s'.procs[s.current].state == StateAfter(call)
    && s'.procs[s.current].pagetable == s.procs[s.current].pagetable
    && OthersKept(s, regs, call, s')
    && RunsNext(s, call, s')
    && (call == GetPid || call == Yield || call == Timer || call == PageFault ==> s'.vm == s.vm)
    && (call == Exit ==> s'.vm.mem == s.vm.mem)
  }

  // ------------------------------------------------------------------- proofs

  lemma SlotIsFirst(procs: Procs)
    ensures var c := FreeSlot(procs, 1);
            && (forall q: nat :: FirstFree(procs, q) <==> q == c < 16)
  {
    hide FreeSlot;
  }

  /** What handlers do before the next process is chosen. */
  ghost predicate Handled(s: State, regs: Registers, call: Call, s1: State) {
    && s.current < 16 && s1.lay == s.lay && s1.current == s.current
    && Answer(s, regs, call, s1.procs[s.current].regs)
    && s1.procs[s.current].state == StateAfter(call)
    && s1.procs[s.current].pagetable == s.procs[s.current].pagetable
    && OthersKept(s, regs, call, s1)
    && (call == GetPid || call == Yield || call == Timer || call == PageFault ==> s1.vm == s.vm)
    && (call == Exit ==> s1.vm.mem == s.vm.mem)
  }

  lemma PageAllocHandled(s: State, regs: Registers, addr: Va, s1: State)
    requires s.current < 16 && s.procs[s.current].state == P_RUNNABLE
    requires Handle(Saved(s, regs), PageAlloc(addr)) == Ok(s1)
    ensures Handled(s, regs, PageAlloc(addr), s1)
  {
    FindMeaning(s.vm.info);
    hide FindFree, MapPage, SomePageFree;
  }

  lemma FindMeaning(info: Info)
    ensures SomePageFree(info) <==> FindFree(info, 1) < 512
  {
  }

  lemma ForkHandled(s: State, regs: Registers, s1: State)
    requires s.current < 16 && s.procs[s.current].state == P_RUNNABLE
    requires Handle(Saved(s, regs), Fork) == Ok(s1)
    ensures Handled(s, regs, Fork, s1)
  {
    hide ForkSpace, FreeSlot, FirstFree;
    FreeSlotSaved(s.procs, Saved(s, regs).procs, 1);
    SlotIsFirst(s.procs);
    SlotFree(s.procs);
    var c := FreeSlot(s.procs, 1);
    assert c < 16 <==> FirstFree(s.procs, c);
  }

  lemma SlotFree(procs: Procs)
    ensures FreeSlot(procs, 1) < 16 ==> procs[FreeSlot(procs, 1)].state == P_FREE
  {
  }

  lemma CallHandled(s: State, regs: Registers, call: Call, s1: State)
    requires s.current < 16 && s.procs[s.current].state == P_RUNNABLE && Handle(Saved(s, regs), call) == Ok(s1)
    ensures Handled(s, regs, call, s1)
  {
    match call {
      case PageAlloc(addr) =>
        PageAllocHandled(s, regs, addr, s1);
      case Fork =>
        ForkHandled(s, regs, s1);
      case Exit =>
        ExitHandled(s, regs, s1);
      case _ =>
        hide AllocAt, SysFork, SysExit, SomePageFree, FirstFree;
    }
  }

  lemma ExitHandled(s: State, regs: Registers, s1: State)
    requires s.current < 16 && s.procs[s.current].state == P_RUNNABLE && Handle(Saved(s, regs), Exit) == Ok(s1)
    ensures Handled(s, regs, Exit, s1)
  {
    hide ExitSpace, SomePageFree, FirstFree;
    ExitMem(s.vm, s.procs[s.current].pagetable, s.current);
  }

  lemma ExitMem(k: VM, root: nat, pid: int)
    ensures ExitSpace(k, root, pid).mem == k.mem
  {
  }

  /** The effect of every trap that completes, in any state. */
  lemma TrapMeaning(s: State, regs: Registers, call: Call, s': State)
    requires Enabled(s, Trap(regs, call)) && Step(s, Trap(regs, call)) == Ok(s')
    ensures TrapEffect(s, regs, call, s')
  {
    hide Handle, CheckVirtualMemory, SetPagetableOk, NextRunnable, Answer, OthersKept, CyclicNext;
    var s1 := Handle(Saved(s, regs), call).value;
    CallHandled(s, regs, call, s1);
    SameAnswer(s, regs, call, s1, s');
    ScheduleMeaning(s1.procs, s1.current);
  }

  lemma SameAnswer(s: State, regs: Registers, call: Call, s1: State, s': State)
    requires s.current < 16 && s1.procs == s'.procs && OthersKept(s, regs, call, s1)
    ensures OthersKept(s, regs, call, s')
  {
  }

  // --------------------------------------------------------------- page_alloc

  /** What a good request does to the process's memory: the least free page, mapped
      with full rights at that page and nowhere else; or, without one, nothing. */
  ghost predicate Served(s: State, addr: Va, s': State)
    requires s.current < 16
  {
    var p, v := s.current, addr / 4096;
    v < 1024 &&
    var f := PageBehind(s', p, v);
    if SomePageFree(s.vm.info) then
      && 0 < f < 512 && s.vm.info[f].refcount == 0
      && (forall x :: 1 <= x < f ==> s.vm.info[x].refcount != 0)
      && PermBehind(s', p, v) == 7
      && s'.vm.info == s.vm.info[f := PageInfo(p, 1)]
      && (forall a: Va :: a / 4096 != v ==> Lookup(s'.vm.mem, Root(s, p), a) == Lookup(s.vm.mem, Root(s, p), a))
    else
      f == -1 && s'.vm == s.vm
  }

  /** A good page_alloc: %rax is 0 exactly when a page that was free is now behind the
      address, and -1 otherwise. */
  lemma PageAllocMeaning(s: State, tabs: TableMap, role: Roles, regs: Registers, addr: Va, s': State)
    requires KInv(s, tabs, role) && Enabled(s, Trap(regs, PageAlloc(addr)))
    requires Step(s, Trap(regs, PageAlloc(addr))) == Ok(s') && GoodRequest(s.vm.mem, TablesOf(s, s.current), addr)
    ensures Served(s, addr, s')
    ensures var rax, f := s'.procs[s.current].regs.rax, PageBehind(s', s.current, addr / 4096);
            && (rax == 0 <==> 0 < f < 512 && s.vm.info[f].refcount == 0)
            && (rax == 0 || rax == MINUS_ONE)
  {
    var p := s.current;
    assert Live(s, p);
    TableOfCurrent(s, tabs, role);
    LiveRoot(s, tabs, p);
    hide Inv, Wired, Slot, ProcsOk, Step, Answer, OthersKept, RunsNext, TableAt, SomePageFree, Lookup;
    TrapMeaning(s, regs, PageAlloc(addr), s');
    PageAllocAnswer(s, regs, addr, s');
    LiveWired(s.lay, s.vm, tabs, role, p);
    var k' := AllocStep(s, regs, addr, s');
    FindMeaning(s.vm.info);
    AllocMeaning(s, s', tabs[p], addr, k');
  }

  lemma LiveRoot(s: State, tabs: TableMap, p: nat)
    requires ProcsOk(s, tabs) && p < 16 && Live(s, p)
    ensures p in tabs && Root(s, p) == tabs[p].l1
  {
  }

  lemma PageAllocAnswer(s: State, regs: Registers, addr: Va, s': State)
    requires TrapEffect(s, regs, PageAlloc(addr), s') && PROC_START_ADDR <= addr
    ensures s'.procs[s.current].regs.rax == if SomePageFree(s.vm.info) then 0 else MINUS_ONE
    ensures Root(s', s.current) == Root(s, s.current)
  {
    hide SomePageFree;
  }

  /** The request is carried out on the process's own table. */
  lemma AllocStep(s: State, regs: Registers, addr: Va, s': State) returns (k': VM)
    requires Enabled(s, Trap(regs, PageAlloc(addr))) && Step(s, Trap(regs, PageAlloc(addr))) == Ok(s')
    ensures AllocAt(s.vm, Root(s, s.current), s.current, addr).Ok?
    ensures k' == AllocAt(s.vm, Root(s, s.current), s.current, addr).value.0 == s'.vm
  {
    hide AllocAt, CheckVirtualMemory, SetPagetableOk;
    k' := s'.vm;
  }

  lemma AllocMeaning(s: State, s': State, t: Table, addr: Va, k': VM)
    requires s.current < 16 && Wired(s.vm.mem, t) && GoodRequest(s.vm.mem, t, addr)
    requires Root(s, s.current) == t.l1 == Root(s', s.current) && s'.vm == k'
             && AllocAt(s.vm, t.l1, s.current, addr).Ok?
    requires k' == AllocAt(s.vm, t.l1, s.current, addr).value.0
    ensures Served(s, addr, s')
    ensures var f := PageBehind(s', s.current, addr / 4096);
            0 < f < 512 && s.vm.info[f].refcount == 0 <==> SomePageFree(s.vm.info)
  {
    hide SomePageFree, Served, AllocAt, FindFree, Wired, Slot, Lookup;
    FindMeaning(s.vm.info);
    if FindFree(s.vm.info, 1) == 512 {
      NotServed(s, s', t, addr);
    } else {
      WasServed(s, s', t, addr);
    }
  }

  lemma NotServed(s: State, s': State, t: Table, addr: Va)
    requires s.current < 16 && Wired(s.vm.mem, t) && GoodRequest(s.vm.mem, t, addr) && FindFree(s.vm.info, 1) == 512
    requires Root(s, s.current) == t.l1 == Root(s', s.current)
    requires AllocAt(s.vm, t.l1, s.current, addr).Ok? && s'.vm == AllocAt(s.vm, t.l1, s.current, addr).value.0
    ensures Served(s, addr, s') && PageBehind(s', s.current, addr / 4096) == -1
  {
    hide SomePageFree, Wired, Slot, Lookup, AllocAt, FindFree;
    FullAlloc(s.vm, t.l1, s.current, addr);
    FindLeast(s.vm.info);
    UnmappedAt(s.vm.mem, t, addr / 4096);
  }

  lemma UnmappedAt(mem: Memory, t: Table, v: nat)
    requires Wired(mem, t) && v < 1024 && Slot(mem, t, v) == 0
    ensures Lookup(mem, t.l1, v * 4096) == UNMAPPED
  {
    hide Wired, Slot, Lookup, Decode;
    UserLookup(mem, t, v);
    DecodeForms(0);
  }

  lemma WasServed(s: State, s': State, t: Table, addr: Va)
    requires s.current < 16 && Wired(s.vm.mem, t) && GoodRequest(s.vm.mem, t, addr) && FindFree(s.vm.info, 1) < 512
    requires Root(s, s.current) == t.l1 == Root(s', s.current)
    requires AllocAt(s.vm, t.l1, s.current, addr).Ok? && s'.vm == AllocAt(s.vm, t.l1, s.current, addr).value.0
    ensures Served(s, addr, s')
    ensures PageBehind(s', s.current, addr / 4096) == FindFree(s.vm.info, 1)
    ensures FindFree(s.vm.info, 1) > 0 && s.vm.info[FindFree(s.vm.info, 1)].refcount == 0
  {
    hide SomePageFree, Wired, Slot, Lookup, WriteSlot, AllocAt, FindFree, GoodRequest;
    var p, v, f := s.current, addr / 4096, FindFree(s.vm.info, 1);
    RequestBounds(s.vm.mem, t, addr);
    FindLeast(s.vm.info);
    PageAllocForm(s.vm, t, p, addr, f, s.vm.info[f := PageInfo(p, 1)]);
    MappedAt(s.vm.mem, s'.vm.mem, t, v, f);
    forall a: Va | a / 4096 != v ensures Lookup(s'.vm.mem, t.l1, a) == Lookup(s.vm.mem, t.l1, a) {
      ElsewhereKept(s.vm.mem, s'.vm.mem, t, v, Full(f), a);
    }
  }

  lemma RequestBounds(mem: Memory, t: Table, addr: Va)
    requires GoodRequest(mem, t, addr)
    ensures addr % 4096 == 0 && PROC_START_ADDR <= addr < MEMSIZE_VIRTUAL && 256 <= addr / 4096 < 768
  {
    hide Slot;
  }

  lemma FindLeast(info: Info)
    ensures var f := FindFree(info, 1);
            && 1 <= f && (f < 512 <==> SomePageFree(info)) && (f < 512 ==> info[f].refcount == 0)
            && forall x :: 1 <= x < f ==> info[x].refcount != 0
  {
    FindMeaning(info);
    hide SomePageFree;
  }

  lemma MappedAt(mem: Memory, m: Memory, t: Table, v: nat, f: nat)
    requires Wired(mem, t) && v < 1024 && f < 512 && t.Distinct() && m == WriteSlot(mem, t, v, Full(f))
    ensures Lookup(m, t.l1, v * 4096) == VaMapping(f, f * 4096, 7) && Wired(m, t)
    ensures forall u :: 0 <= u < 1024 ==> Slot(m, t, u) == if u == v then Full(f) else Slot(mem, t, u)
  {
    hide Wired, Slot, Lookup, WriteSlot, Decode, Full;
    WriteSlotKeeps(mem, t, v, Full(f));
    UserLookup(m, t, v);
    DecodeForms(f);
  }

  lemma ElsewhereKept(mem: Memory, m: Memory, t: Table, v: nat, w: Word, a: Va)
    requires Wired(mem, t) && Wired(m, t) && v < 1024 && a / 4096 != v
    requires forall u :: 0 <= u < 1024 ==> Slot(m, t, u) == if u == v then w else Slot(mem, t, u)
    ensures Lookup(m, t.l1, a) == Lookup(mem, t.l1, a)
  {
    hide Wired, Slot, Lookup, Decode;
    LookupWired(mem, t, a);
    LookupWired(m, t, a);
  }

  lemma FullAlloc(k: VM, root: nat, pid: int, addr: Va)
    requires FindFree(k.info, 1) == 512
    ensures AllocAt(k, root, pid, addr) == Ok((k, -1))
  {
  }

  // --------------------------------------------------------------------- stores

  /** The word of memory behind `va`, as its page and its index there, holds `w`; all
      other words are as before. */
  ghost predicate Stored(mem: Memory, m: Memory, root: nat, va: Va, w: Word) {
    var pa := Lookup(mem, root, va).pa;
    && 0 <= pa < MEMSIZE_PHYSICAL && pa % 4096 == va % 4096
    && m[pa / 4096][pa % 4096 / 8] == w
    && forall x, i :: 0 <= x < 512 && 0 <= i < 512 && !(x == pa / 4096 && i == pa % 4096 / 8) ==> m[x][i] == mem[x][i]
  }

  lemma StoreMeaning(s: State, tabs: TableMap, role: Roles, va: Va, w: Word, s': State)
    requires KInv(s, tabs, role) && Enabled(s, Store(va, w)) && Step(s, Store(va, w)) == Ok(s')
    ensures Stored(s.vm.mem, s'.vm.mem, Root(s, s.current), va, w)
  {
    var p := s.current;
    assert Live(s, p) && p in tabs;
    hide Inv, E4, Lookup, Wired, Slot, WellFormed, HardwareWritable, HardwareUser, Present, Frame;
    LiveWired(s.lay, s.vm, tabs, role, p);
    StoreTarget(s.lay, s.vm, tabs, role, p, va);
    WiredWellFormed(s.vm.mem, tabs[p]);
    LookupExact(s.vm.mem, tabs[p].l1, va);
    PageSplit(Frame(E4(s.vm.mem, tabs[p].l1, va)), va);
  }

  lemma PageSplit(f: nat, va: Va)
    requires f < 512
    ensures (f * 4096 + va % 4096) / 4096 == f && (f * 4096 + va % 4096) % 4096 == va % 4096
    ensures f * 4096 + va % 4096 < MEMSIZE_PHYSICAL && va % 4096 / 8 < 512
  {
    DivMod(f * 4096 + va % 4096, 4096, f, va % 4096);
  }
}
