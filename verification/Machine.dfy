/** The kernel as it is written: arrays updated in place by loops. Every method is
    proved to compute the operation of the same name on the state's value. */
module Machine {
  import opened X86
  import opened Paging
  import opened Tables
  import opened Spaces
  import opened Alloc
  import opened Duplicate
  import opened Forks
  import opened Exits
  import opened Activation
  import opened Kernel
  import opened Steps
  import opened Scheduler
  import opened Panics

  class KernelMachine {
    const lay: Layout
    const mem: array<Page>
    const pageinfo: array<PageInfo>
    const processes: array<Proc>
    var current: nat

    constructor (lay: Layout, mem: array<Page>, pageinfo: array<PageInfo>, processes: array<Proc>)
      requires mem.Length == 512 && pageinfo.Length == 512 && processes.Length == 16 && lay.Valid()
      ensures Shape() && current == 0
      ensures this.lay == lay && this.mem == mem && this.pageinfo == pageinfo && this.processes == processes
    {
      this.lay := lay;
      this.mem := mem;
      this.pageinfo := pageinfo;
      this.processes := processes;
      current := 0;
    }

    ghost predicate Shape()
      reads this
    {
      mem.Length == 512 && pageinfo.Length == 512 && processes.Length == 16 && current < 16 && lay.Valid()
    }

    ghost function Vm(): VM
      requires Shape()
      reads this, mem, pageinfo
    {
      VM(mem[..], pageinfo[..])
    }

    ghost function Value(): State
      requires Shape()
      reads this, mem, pageinfo, processes
    {
      State(lay, Vm(), processes[..], current)
    }

    // ----------------------------------------------------------- allocation

    /** assign_physical_page (kernel.c:208-218). */
    method AssignPhysicalPage(addr: nat, owner: int) returns (r: int)
      requires Shape()
      modifies pageinfo
      ensures r == if addr % 4096 == 0 && addr < MEMSIZE_PHYSICAL && old(pageinfo[..])[addr / 4096].refcount == 0
              then 0 else -1
      ensures pageinfo[..] == if r == 0 then old(pageinfo[..])[addr / 4096 := PageInfo(owner, 1)] else old(pageinfo[..])
    {
      if addr % 4096 != 0 || addr >= MEMSIZE_PHYSICAL || pageinfo[addr / 4096].refcount != 0 {
        return -1;
      } else {
        pageinfo[addr / 4096] := PageInfo(owner, 1);
        return 0;
      }
    }

    /** alloc_page_process (kernel.c:171-181). */
    method AllocPageProcess(pid: int) returns (page: nat)
      requires Shape()
      modifies pageinfo
      ensures (pageinfo[..], page) == AllocPage(old(pageinfo[..]), pid)
    {
      var p := 1;
      while p < 512
        invariant 1 <= p <= 512
        invariant FindFree(pageinfo[..], p) == FindFree(pageinfo[..], 1)
      {
        if pageinfo[p].refcount == 0 {
          break;
        }
        p := p + 1;
      }
      assert p == FindFree(pageinfo[..], 1);
      var r := AssignPhysicalPage(p * 4096, pid);
      page := if r > -1 then p else 0;
    }

    /** sys_page_alloc_find_free (kernel.c:184-200); `ok` is false when the alignment
        assert of virtual_memory_map fails. */
    method SysPageAllocFindFree(root: nat, pid: int, addr: Va) returns (ok: bool, r: int)
      requires Shape() && WellFormed(mem[..], root)
      modifies mem, pageinfo
      ensures AllocAt(old(Vm()), root, pid, addr) == if ok then Ok((Vm(), r)) else Panic
    {
      var p := 1;
      while p < 512
        invariant 1 <= p <= 511
        invariant FindFree(pageinfo[..], p) == FindFree(pageinfo[..], 1)
      {
        if pageinfo[p].refcount == 0 {
          break;
        } else if p == 511 {
          assert FindFree(pageinfo[..], 512) == 512;
          return true, -1;
        }
        p := p + 1;
      }
      assert p == FindFree(pageinfo[..], 1);
      ghost var k := Vm();
      r := AssignPhysicalPage(p * 4096, pid);
      if addr < PROC_START_ADDR {
        r := -1;
      }
      if r >= 0 {
        if addr % 4096 != 0 {
          return false, r;
        }
        MapAssertsHold(mem[..], root, addr, p * 4096, 7);
        var _ := VirtualMemoryMap(mem, root, addr, p * 4096, 4096, 7);
      }
      ok := true;
    }

    // ----------------------------------------------------------------- fork

    /** duplicate_pagetable (kernel.c:141-168) for the table `s` rooted at `src`;
        0 stands for NULL. */
    method DuplicatePagetable(src: nat, ghost s: Table, pid: int) returns (root: nat)
      requires Shape() && s.l1 == src
      requires Wired(mem[..], s) && FramesInstalled(mem[..], s) && InUse(pageinfo[..], s)
      modifies mem, pageinfo
      ensures Duplicate.DuplicatePagetable(old(Vm()), src, pid) == Ok((Vm(), root))
    {
      hide AllocPage, Wired, FramesInstalled, CopyLow, Lookup, InUse, Disjoint, Full;
      ghost var k := Vm();
      var l1 := AllocPageProcess(pid);
      var l2 := AllocPageProcess(pid);
      var l3 := AllocPageProcess(pid);
      var lo := AllocPageProcess(pid);
      var hi := AllocPageProcess(pid);
      ghost var t := Table(l1, l2, l3, lo, hi);
      assert (pageinfo[..], t) == AllocFive(k.info, pid);
      AllocInstalled(k.info, pid);
      hide AllocFive;
      ClearPages(l1, l2, l3, lo, hi);
      if l1 == 0 || l2 == 0 || l3 == 0 || lo == 0 || hi == 0 {
        return 0;
      }
      AllocDistinct(k.info, pid);
      WirePages(l1, l2, l3, lo, hi);
      FreshDisjoint(k.info, pid, s, t);
      WireWires(k.mem, t);
      WiredAgain(k.mem, mem[..], s, t);
      hide Wire, ClearFive;
      CopyLowLoop(src, l1, s, t);
      return l1;
    }

    /** Five pages cleared by memset (kernel.c:147-151). */
    method ClearPages(l1: nat, l2: nat, l3: nat, lo: nat, hi: nat)
      requires Shape() && l1 < 512 && l2 < 512 && l3 < 512 && lo < 512 && hi < 512
      modifies mem
      ensures mem[..] == ClearFive(old(mem[..]), Table(l1, l2, l3, lo, hi))
    {
      mem[l1] := ZeroPage();
      mem[l2] := ZeroPage();
      mem[l3] := ZeroPage();
      mem[lo] := ZeroPage();
      mem[hi] := ZeroPage();
    }

    /** Five cleared pages connected into a table (kernel.c:153-156). */
    method WirePages(l1: nat, l2: nat, l3: nat, lo: nat, hi: nat)
      requires Shape() && Table(l1, l2, l3, lo, hi).Distinct()
      modifies mem
      ensures mem[..] == Wire(old(mem[..]), Table(l1, l2, l3, lo, hi))
    {
      hide Full;
      mem[l1] := mem[l1][0 := Full(l2)];
      mem[l2] := mem[l2][0 := Full(l3)];
      mem[l3] := mem[l3][0 := Full(lo)];
      mem[l3] := mem[l3][1 := Full(hi)];
    }

    /** The copy loop of kernel.c:160-164. */
    method CopyLowLoop(src: nat, dst: nat, ghost s: Table, ghost t: Table)
      requires Shape() && s.l1 == src && t.l1 == dst && Disjoint(s, t)
      requires Wired(mem[..], s) && Wired(mem[..], t) && FramesInstalled(mem[..], s)
      modifies mem
      ensures CopyLow(old(mem[..]), src, dst, 0) == Ok(mem[..])
    {
      hide Wired, FramesInstalled, Lookup, Disjoint;
      var v := 0;
      while v < 256
        invariant 0 <= v <= 256
        invariant Wired(mem[..], s) && Wired(mem[..], t) && FramesInstalled(mem[..], s)
        invariant CopyLow(mem[..], src, dst, v) == CopyLow(old(mem[..]), src, dst, 0)
      {
        ghost var m := CopyStep(mem[..], s, t, v);
        var vam := LookupMapped(src, s, v * 4096);
        RecopyArgs(mem[..], s, v);
        var _ := MapThrough(dst, t, v * 4096, vam.pa, vam.perm);
        v := v + 1;
      }
    }

    /** virtual_memory_lookup through a wired table. */
    method LookupMapped(root: nat, ghost t: Table, va: Va) returns (vam: VaMapping)
      requires Shape() && t.l1 == root && Wired(mem[..], t)
      ensures vam == Lookup(mem[..], root, va)
    {
      WiredWellFormed(mem[..], t);
      WalkIsInstalled(mem[..], root, va);
      vam := VirtualMemoryLookup(mem, root, va);
    }

    /** virtual_memory_map of one page through a wired table; its asserts hold. */
    method MapThrough(root: nat, ghost t: Table, va: nat, pa: nat, perm: nat) returns (r: int)
      requires Shape() && t.l1 == root && Wired(mem[..], t) && MapArgs(va, pa, 1, perm)
      modifies mem
      ensures MapPage(old(mem[..]), root, va, pa, perm) == Ok((mem[..], r))
    {
      WiredWellFormed(mem[..], t);
      MapAssertsHold(mem[..], root, va, pa, perm);
      r := VirtualMemoryMap(mem, root, va, pa, 4096, perm);
    }

    /** The copy loop of INT_SYS_FORK (kernel.c:368-380), whether or not memory lasts. */
    method ForkLoopMethod(parent: nat, child: nat, pid: int, ghost tp: Table, ghost tc: Table)
      requires Shape() && tp.l1 == parent && tc.l1 == child && Sane(Vm(), tp, tc)
      modifies mem, pageinfo
      ensures ForkPages(old(Vm()), parent, child, pid, 256) == Ok(Vm())
    {
      hide Sane, Lookup, MapPage, AllocPage, Writable, ForkPage, ForkPages, ToInt8;
      var v := 256;
      while v < 768
        invariant 256 <= v <= 768
        invariant Sane(Vm(), tp, tc)
        invariant ForkPages(Vm(), parent, child, pid, v) == ForkPages(old(Vm()), parent, child, pid, 256)
      {
        ghost var k := Vm();
        SaneStep(k, tp, tc, pid, v);
        SaneWired(k, tp, tc);
        var vam := LookupMapped(parent, tp, v * 4096);
        SaneArgs(k, tp, tc, pid, v);
        if vam.pa != CONSOLE_ADDR && Writable(vam.perm) {
          var page := AllocPageProcess(pid);
          mem[page] := mem[vam.pa / 4096];
          assert mem[..] == k.mem[page := PageAt(k.mem, vam.pa / 4096)];
          var r := MapThrough(child, tc, v * 4096, page * 4096, vam.perm);
          ForkPageCopies(k, parent, child, pid, v, pageinfo[..], page, mem[..], r);
        } else {
          var r := MapThrough(child, tc, v * 4096, vam.pa, vam.perm);
          ForkPageShares(k, parent, child, pid, v, mem[..], r);
          if vam.pn >= 0 {
            pageinfo[vam.pn] := pageinfo[vam.pn].(refcount := ToInt8(pageinfo[vam.pn].refcount + 1));
          }
          assert pageinfo[..] == IncRef(k.info, vam.pn);
        }
        ForkPagesNext(k, Vm(), parent, child, pid, v);
        v := v + 1;
      }
      ForkPagesEnd(Vm(), parent, child, pid);
    }

    /** INT_SYS_FORK (kernel.c:359-397). `ok` is false when duplicate_pagetable
        failed and the handler returned where it must not. */
    method SysFork() returns (ok: bool)
      requires Shape() && Consistent(Value()) && Live(Value(), current)
      modifies mem, pageinfo, processes
      ensures ok ==> Kernel.SysFork(old(Value())) == Ok(Value())
      ensures !ok ==> Kernel.SysFork(old(Value())).Panic?
    {
      hide ForkPages, Duplicate.DuplicatePagetable, KInv, Wired, FramesInstalled, InUse, Sane;
      ghost var s0 := Value();
      ghost var tabs: TableMap, role: Roles :| KInv(s0, tabs, role);
      var c := 1;
      while c < 16
        invariant 1 <= c <= 16
        invariant FreeSlot(processes[..], c) == FreeSlot(processes[..], 1)
      {
        if processes[c].state == P_FREE {
          break;
        }
        c := c + 1;
      }
      assert c == FreeSlot(processes[..], 1);
      hide FreeSlot;
      var p := current;
      if c == 16 {
        processes[p] := processes[p].(regs := processes[p].regs.(rax := ToWord(-1)));
        assert processes[..] == SetRax(s0.procs, p, -1);
        return true;
      }
      var parent := processes[p].pagetable;
      ForkSource(s0, tabs, role);
      var child := DuplicatePagetable(parent, tabs[p], c);
      if child == 0 {
        return false;
      }
      ghost var t := SaneStart(s0, tabs, role, c, Vm(), child);
      ForkLoopMethod(parent, child, c, tabs[p], t);
      processes[c] := Proc(processes[p].regs.(rax := 0), P_RUNNABLE, child);
      processes[p] := processes[p].(regs := processes[p].regs.(rax := ToWord(c)));
      assert processes[..] == SetRax(s0.procs[c := Proc(s0.procs[p].regs.(rax := 0), P_RUNNABLE, child)], p, c);
      return true;
    }

    // ----------------------------------------------------------------- exit

    /** The walk of kernel.c:416-430. */
    method ExitLoopMethod(ghost t: Table, l1: nat, l2: nat, l3: nat, lo: nat, hi: nat, pid: int)
      requires Shape() && t == Table(l1, l2, l3, lo, hi) && Wired(mem[..], t)
      modifies pageinfo
      ensures pageinfo[..] == ExitPages(old(pageinfo[..]), mem[..], t, pid, 256)
    {
      hide Wired, Lookup, Writable, ToInt8;
      var v := 256;
      while v < 768
        invariant 256 <= v <= 768
        invariant ExitPages(pageinfo[..], mem[..], t, pid, v) == ExitPages(old(pageinfo[..]), mem[..], t, pid, 256)
      {
        ghost var info: Info := pageinfo[..];
        var vam := LookupMapped(l1, t, v * 4096);
        if 0 < vam.pn < 512 {
          var i := pageinfo[vam.pn];
          if !Writable(vam.perm) && i.refcount != 0 {
            pageinfo[vam.pn] := i.(refcount := ToInt8(i.refcount - 1));
          } else if Writable(vam.perm) && i.owner == pid && i.refcount != 0
                    && vam.pn != l1 && vam.pn != l2 && vam.pn != l3 && vam.pn != lo && vam.pn != hi {
            pageinfo[vam.pn] := RELEASED;
          }
        }
        assert pageinfo[..] == ExitPage(info, mem[..], t, pid, v);
        v := v + 1;
      }
    }

    /** INT_SYS_EXIT (kernel.c:399-432). */
    method SysExit()
      requires Shape() && Consistent(Value()) && Live(Value(), current)
      modifies pageinfo, processes
      ensures Value() == Kernel.SysExit(old(Value()))
    {
      hide KInv, Wired, ExitPages;
      ghost var s0 := Value();
      ghost var tabs: TableMap, role: Roles :| KInv(s0, tabs, role);
      var p := current;
      ForkSource(s0, tabs, role);
      ghost var t := tabs[p];
      TableAtWired(s0.vm.mem, t);
      WiredDistinct(s0.vm.mem, t);
      var l1 := processes[p].pagetable;
      var l2 := Frame(mem[l1][0]);
      var l3 := Frame(mem[l2][0]);
      var lo, hi := Frame(mem[l3][0]), Frame(mem[l3][1]);
      pageinfo[l1] := RELEASED;
      pageinfo[l2] := RELEASED;
      pageinfo[l3] := RELEASED;
      pageinfo[lo] := RELEASED;
      pageinfo[hi] := RELEASED;
      assert pageinfo[..] == ReleaseTable(s0.vm.info, t);
      processes[p] := processes[p].(state := P_FREE);
      ExitLoopMethod(t, l1, l2, l3, lo, hi, p);
      assert processes[..] == s0.procs[p := s0.procs[p].(state := P_FREE)];
    }

    // ------------------------------------------------------------- scheduling

    /** set_pagetable (vm.c:60-72): true when none of its asserts fails. */
    method SetPagetable(root: nat) returns (ok: bool)
      requires Shape() && WellFormed(mem[..], root) && WellFormed(mem[..], lay.tables)
      ensures ok == SetPagetableOk(mem[..], lay, root)
    {
      RootInstalled(mem[..], root);
      hide WellFormed, Lookup, WalkInstalled;
      WalkIsInstalled(mem[..], root, lay.handler);
      var vam := VirtualMemoryLookup(mem, root, lay.handler);
      if vam.pa != lay.handler {
        return false;
      }
      WalkIsInstalled(mem[..], lay.tables, root * 4096);
      vam := VirtualMemoryLookup(mem, lay.tables, root * 4096);
      if vam.pa != root * 4096 {
        return false;
      }
      WalkIsInstalled(mem[..], root, lay.tables * 4096);
      vam := VirtualMemoryLookup(mem, root, lay.tables * 4096);
      if vam.pa != lay.tables * 4096 {
        return false;
      }
      WalkIsInstalled(mem[..], root, lay.mapper);
      vam := VirtualMemoryLookup(mem, root, lay.mapper);
      return vam.pa == lay.mapper;
    }

    /** run (kernel.c:473-478): `ok` is false when one of its asserts fails. */
    method Run(pid: nat) returns (ok: bool)
      requires Shape() && pid < 16 && WellFormed(mem[..], lay.tables) && WellFormed(mem[..], processes[pid].pagetable)
      modifies this`current
      ensures Shape()
              && ok == (processes[pid].state == P_RUNNABLE && SetPagetableOk(mem[..], lay, processes[pid].pagetable))
      ensures current == if processes[pid].state == P_RUNNABLE then pid else old(current)
    {
      hide WellFormed, SetPagetableOk;
      if processes[pid].state != P_RUNNABLE {
        return false;
      }
      current := pid;
      ok := SetPagetable(processes[pid].pagetable);
    }

    /** schedule (kernel.c:454-464) when something can run. */
    method Schedule() returns (ok: bool)
      requires Shape() && (exists r :: Runnable(processes[..], r)) && WellFormed(mem[..], lay.tables)
      requires forall p :: 0 <= p < 16 && processes[p].state == P_RUNNABLE ==>
                 WellFormed(mem[..], processes[p].pagetable)
      modifies this`current
      ensures Shape() && Value() == Dispatch(old(Value())) && CyclicNext(processes[..], old(current), current)
      ensures RunCurrent(Value()) == if ok then Ok(Value()) else Panic
    {
      hide Gap, WellFormed, SetPagetableOk;
      var pid: nat := current;
      ghost var n: nat := 16;
      ScheduleMeaning(processes[..], current);
      while true
        invariant pid < 16 && current == old(current)
        invariant NextRunnable(processes[..], pid, n) == NextRunnable(processes[..], current, 16) < 16
        decreases n
      {
        assert n > 0;
        pid := (pid + 1) % 16;
        if processes[pid].state == P_RUNNABLE {
          ok := Run(pid);
          return;
        }
        n := n - 1;
      }
    }

    /** exception up to the choice between run and schedule (kernel.c:264-438); `ok` is
        false when the kernel stops. */
    method HandleTrap(regs: Registers, call: Call) returns (ok: bool, reschedule: bool)
      requires Shape() && Consistent(Value()) && processes[current].state == P_RUNNABLE && Carries(regs, call)
      modifies mem, pageinfo, processes
      ensures Shape()
      ensures var r := Trapped(old(Value()), regs, call);
              if ok then r == Ok(Value()) && reschedule == Reschedules(Value(), call) else r.Panic?
    {
      hide Kernel.SysFork, Kernel.SysExit, KInv, AllocAt, Kernel.CheckVirtualMemory, SetPagetableOk, WellFormed,
           Consistent;
      ghost var s := Value();
      processes[current] := processes[current].(regs := regs);
      ghost var s0 := Value();
      assert s0 == Saved(s, regs);
      SavedConsistent(s, s0);
      ConsistentTables(s0);
      reschedule := false;
      ok := SetPagetable(lay.tables);
      if !ok {
        return;
      }
      ok := CheckVirtualMemory();
      if !ok {
        return;
      }
      match call {
        case GetPid =>
          processes[current] := processes[current].(regs := regs.(rax := ToWord(current)));
          assert processes[..] == SetRax(s0.procs, current, current);
        case Yield =>
        case Timer =>
        case PageAlloc(_) =>
          var addr := processes[current].regs.rdi;
          var r;
          ok, r := SysPageAllocFindFree(processes[current].pagetable, current, addr);
          AllocResult(s0.vm, processes[current].pagetable, current, addr);
          if ok {
            processes[current] := processes[current].(regs := regs.(rax := ToWord(r)));
            assert processes[..] == SetRax(s0.procs, current, r);
          }
        case Fork =>
          ok := SysFork();
        case Exit =>
          SysExit();
        case PageFault =>
          processes[current] := processes[current].(state := P_BROKEN);
          assert processes[..] == s0.procs[current := s0.procs[current].(state := P_BROKEN)];
      }
      reschedule := call == Yield || call == Timer || processes[current].state != P_RUNNABLE;
    }

    /** exception (kernel.c:264-447) with the run or schedule it ends in. `ok` is false
        when the kernel stops; `spins` is true when schedule finds nothing to run and
        goes on looking. */
    method Exception(regs: Registers, call: Call) returns (ok: bool, spins: bool)
      requires Shape() && Consistent(Value()) && processes[current].state == P_RUNNABLE && Carries(regs, call)
      modifies this`current, mem, pageinfo, processes
      ensures Shape()
      ensures var r := Kernel.Exception(old(Value()), regs, call); if ok then r == Ok(Value()) else r.Panic?
      ensures spins ==> ok && forall p :: !Runnable(processes[..], p)
    {
      hide Consistent, Trapped, Handle, WellFormed, SetPagetableOk, Dispatch;
      ghost var s := Value();
      spins := false;
      var reschedule;
      ok, reschedule := HandleTrap(regs, call);
      if !ok {
        return;
      }
      ghost var s1 := Value();
      TrapTables(s, regs, call, s1);
      if !reschedule {
        ok := Run(current);
      } else if exists p :: 0 <= p < 16 && processes[p].state == P_RUNNABLE {
        ghost var p :| 0 <= p < 16 && processes[p].state == P_RUNNABLE;
        assert Runnable(processes[..], p);
        ok := Schedule();
      } else {
        NothingRuns(s1);
        spins := true;
      }
    }

    // ----------------------------------------------------------- self-checks

    /** check_page_table_mappings (kernel.c:514-536). */
    method CheckPageTableMappings(root: nat) returns (ok: bool)
      requires Shape() && WellFormed(mem[..], root)
      ensures ok == MappingsOk(mem[..], root, lay)
    {
      hide Lookup, WellFormed, Writable;
      var va := KERNEL_START_ADDR;
      while va < lay.end
        invariant KERNEL_START_ADDR <= va < 0x1_0000_0000
        invariant MappedFrom(mem[..], root, lay, va) == MappedFrom(mem[..], root, lay, KERNEL_START_ADDR)
        decreases lay.end - va
      {
        WalkIsInstalled(mem[..], root, va);
        var vam := VirtualMemoryLookup(mem, root, va);
        if vam.pa != va {
          return false;
        }
        if va >= lay.startData && !Writable(vam.perm) {
          return false;
        }
        va := va + 4096;
      }
      WalkIsInstalled(mem[..], root, KERNEL_STACK_PAGE);
      var vam := VirtualMemoryLookup(mem, root, KERNEL_STACK_PAGE);
      return vam.pa == KERNEL_STACK_PAGE && Writable(vam.perm);
    }

    /** check_page_table_ownership_level (kernel.c:562-576). */
    method CheckOwnershipLevel(pt: nat, level: nat, owner: int, refcount: int) returns (ok: bool)
      requires Shape() && level <= 3
      ensures ok == OwnershipOk(mem[..], pageinfo[..], pt, level, owner, refcount)
      decreases 3 - level
    {
      if pt >= 512 || pageinfo[pt].owner != owner || pageinfo[pt].refcount != refcount {
        return false;
      }
      if level < 3 {
        for index := 0 to 512
          invariant forall i :: 0 <= i < index && mem[pt][i] != 0 ==>
                      OwnershipOk(mem[..], pageinfo[..], Frame(mem[pt][i]), level + 1, owner, 1)
        {
          if mem[pt][index] != 0 {
            var below := CheckOwnershipLevel(Frame(mem[pt][index]), level + 1, owner, 1);
            if !below {
              return false;
            }
          }
        }
      }
      return true;
    }

    /** The count of kernel.c:546-559: processes that use the kernel's own table. */
    method CountKernelUsers() returns (n: nat)
      requires Shape()
      ensures n == |KernelUsers(Value())|
    {
      n := 0;
      ghost var seen: set<nat> := {};
      for xpid := 0 to 16
        invariant seen == set p: nat | p < xpid && Live(Value(), p) && processes[p].pagetable == lay.tables
        invariant n == |seen|
      {
        if processes[xpid].state != P_FREE && processes[xpid].pagetable == lay.tables {
          n := n + 1;
          seen := seen + {xpid};
        }
      }
      assert seen == KernelUsers(Value());
    }

    /** check_virtual_memory (kernel.c:583-611): true when none of its asserts fails. */
    method CheckVirtualMemory() returns (ok: bool)
      requires Shape() && WellFormed(mem[..], lay.tables)
      requires forall p :: 0 <= p < 16 && processes[p].state != P_FREE ==> WellFormed(mem[..], processes[p].pagetable)
      ensures ok == Kernel.CheckVirtualMemory(Value())
    {
      hide WellFormed, MappingsOk, OwnershipOk, KernelUsers;
      ghost var s := Value();
      if processes[0].state != P_FREE {
        return false;
      }
      var users := CountKernelUsers();
      var mapped := CheckPageTableMappings(lay.tables);
      var owned := CheckOwnershipLevel(lay.tables, 0, PO_KERNEL, 1 + users);
      if !mapped || !owned {
        return false;
      }
      for pid := 0 to 16
        invariant forall p: nat :: p < pid ==> ProcessOk(s, p)
      {
        if processes[pid].state != P_FREE && processes[pid].pagetable != lay.tables {
          mapped := CheckPageTableMappings(processes[pid].pagetable);
          owned := CheckOwnershipLevel(processes[pid].pagetable, 0, pid, 1);
          if !mapped || !owned {
            assert !ProcessOk(s, pid);
            return false;
          }
        }
      }
      for pn := 0 to 512
        invariant forall x: nat :: x < pn ==> RecordOk(s, x)
      {
        if pageinfo[pn].refcount > 0 && pageinfo[pn].owner >= 0 {
          if pageinfo[pn].owner >= 16 || processes[pageinfo[pn].owner].state == P_FREE {
            assert !RecordOk(s, pn);
            return false;
          }
        }
      }
      return true;
    }
  }

  // ------------------------------------------------------------- proof support

  lemma MapAssertsHold(m: Memory, root: nat, va: nat, pa: nat, perm: nat)
    requires WellFormed(m, root) && MapArgs(va, pa, 1, perm)
    ensures MapAsserts(m, root, va, pa, perm)
  {
    LevelsOk(m, root, va, perm);
  }

  lemma WalkIsInstalled(m: Memory, root: nat, va: Va)
    requires WellFormed(m, root)
    ensures WalkInstalled(m, root, va)
  {
    assert InteriorAt(m, root, va);
  }

  lemma RecopyArgs(m: Memory, s: Table, v: nat)
    requires Wired(m, s) && FramesInstalled(m, s) && v < 1024
    ensures var vam := Lookup(m, s.l1, v * 4096);
            vam.pa >= 0 && MapArgs(v * 4096, vam.pa, 1, vam.perm)
  {
    hide Wired, Lookup, MapArgs, Slot;
    UserLookup(m, s, v);
    Recopy(m, s, v);
  }

  lemma FreshDisjoint(info: Info, pid: int, s: Table, t: Table)
    requires t == AllocFive(info, pid).1 && t.l1 != 0 && t.l2 != 0 && t.l3 != 0 && t.lo != 0 && t.hi != 0
    requires InUse(info, s)
    ensures Disjoint(s, t)
  {
    AllocSucceeds(info, pid);
    AllocGood(info, pid, AllocFive(info, pid).0, t);
    hide AllocFive, FreePages;
  }

  // The two branches of an iteration of the fork loop.
  lemma ForkPageCopies(k: VM, parent: nat, child: nat, pid: int, v: nat, info: Info, page: nat, m: Memory, r: int)
    requires v < 768 && page < 512 && (info, page) == AllocPage(k.info, pid)
    requires var vam := Lookup(k.mem, parent, v * 4096);
             && vam.pa != CONSOLE_ADDR && Writable(vam.perm) && vam.pa >= 0
             && MapPage(k.mem[page := PageAt(k.mem, vam.pa / 4096)], child, v * 4096, page * 4096, vam.perm)
               == Ok((m, r))
    ensures ForkPage(k, parent, child, pid, v) == Ok(VM(m, info))
  {
    hide Lookup, MapPage, AllocPage, Writable;
  }

  lemma ForkPageShares(k: VM, parent: nat, child: nat, pid: int, v: nat, m: Memory, r: int)
    requires v < 768
    requires var vam := Lookup(k.mem, parent, v * 4096);
             && !(vam.pa != CONSOLE_ADDR && Writable(vam.perm)) && vam.pa >= 0
             && MapPage(k.mem, child, v * 4096, vam.pa, vam.perm) == Ok((m, r))
    ensures ForkPage(k, parent, child, pid, v) == Ok(VM(m, IncRef(k.info, Lookup(k.mem, parent, v * 4096).pn)))
  {
    hide Lookup, MapPage, AllocPage, Writable;
  }

  // ------------------------------------------------------- from the invariant

  lemma ForkSource(s: State, tabs: TableMap, role: Roles)
    requires KInv(s, tabs, role) && Live(s, s.current)
    ensures s.current in tabs && s.procs[s.current].pagetable == tabs[s.current].l1
    ensures Wired(s.vm.mem, tabs[s.current]) && FramesInstalled(s.vm.mem, tabs[s.current])
            && InUse(s.vm.info, tabs[s.current])
  {
    SourceOk(s.lay, s.vm, tabs, role, s.current);
  }

  lemma NothingRuns(s: State)
    requires s.current < 16 && forall p :: !Runnable(s.procs, p)
    ensures Dispatch(s) == s && RunCurrent(s) == Ok(s)
  {
    hide NextRunnable;
    ScheduleMeaning(s.procs, s.current);
    assert !Runnable(s.procs, s.current);
  }

  /** Once the handler has run, every table that may be activated next is well-formed. */
  lemma TrapTables(s: State, regs: Registers, call: Call, s1: State)
    requires Consistent(s) && s.current < 16 && s.procs[s.current].state == P_RUNNABLE
             && Trapped(s, regs, call) == Ok(s1)
    ensures LeavesTables(s1, call)
    ensures !Reschedules(s1, call) ==> s1.procs[s1.current].state == P_RUNNABLE
  {
    var tabs: TableMap, role: Roles :| KInv(s, tabs, role);
    hide Inv, Exact, Owned, Handle, Trapped, CheckVirtualMemory, LeavesTables, ProcsOk;
    EntryChecks(s, tabs, role, regs, call);
    SavedKeeps(Loose, s, tabs, role, regs);
    HandlePanicsIff(Saved(s, regs), tabs, role, call);
  }

  lemma SavedConsistent(s: State, s0: State)
    requires Consistent(s) && s.current < 16 && exists regs :: s0 == Saved(s, regs)
    ensures Consistent(s0)
  {
    hide Inv, Exact, Owned;
    var tabs: TableMap, role: Roles :| KInv(s, tabs, role);
    SameSpaces(Loose, s, s0, tabs, role);
  }

  lemma AllocResult(k: VM, root: nat, pid: int, addr: Va)
    ensures AllocAt(k, root, pid, addr).Ok? ==> AllocAt(k, root, pid, addr).value.1 in {0, -1}
  {
    hide MapPage, FindFree;
  }
}
