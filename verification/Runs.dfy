/** Whole runs of the kernel, from power-on through any number of allowed steps. */
module Runs {
  import opened X86
  import opened Paging
  import opened Tables
  import opened Spaces
  import opened Duplicate
  import opened Forks
  import opened Activation
  import opened Kernel
  import opened Alloc
  import opened Steps
  import opened Properties
  import opened ForkProperties
  import opened Noninterference
  import opened SelfCheck
  import opened Panics
  import opened Copies
  import opened Traps
  import opened Loader
  import opened LoadProperties
  import opened Boot

  // ------------------------------------------------------------ initial states

  predicate Readable(jobs: seq<Job>) {
    forall j :: j in jobs ==> j.pid < 16 && forall x :: x in j.segs ==> x.Readable()
  }

  /** Different processes, each with page-aligned, page-disjoint segments below its
      stack page. */
  ghost predicate GoodJobs(jobs: seq<Job>) {
    && Readable(jobs)
    && (forall i :: 0 <= i < |jobs| ==> 1 <= jobs[i].pid && GoodProgram(jobs[i].segs, MEMSIZE_VIRTUAL - 4096))
    && (forall i, j :: 0 <= i < j < |jobs| ==> jobs[i].pid != jobs[j].pid)
  }

  /** `s` is the state in which `kernel` runs process 1. */
  ghost predicate Initial(s: State, lay: Layout, mem: Memory, jobs: seq<Job>) {
    && lay.Valid() && GoodJobs(jobs)
    && SetupAll(BootState(lay, mem), jobs).Ok?
    && s == SetupAll(BootState(lay, mem), jobs).value.(current := 1)
    && s.procs[1].state == P_RUNNABLE
  }

  /** The process of a job is runnable, with the registers and the program it was given. */
  ghost predicate Started(s: State, tabs: TableMap, j: Job) {
    && 1 <= j.pid < 16 && j.pid in tabs
    && s.procs[j.pid].state == P_RUNNABLE && s.procs[j.pid].regs == j.regs && s.procs[j.pid].pagetable == tabs[j.pid].l1
    && ProgramLoaded(s.vm.mem, tabs[j.pid], j.segs)
  }

  lemma StartsJob(s: State, tabs: TableMap, role: Roles, j: Job) returns (s1: State, tabs1: TableMap, role1: Roles)
    requires MInv(Checked, s, tabs, role) && 1 <= j.pid < 16 && !Live(s, j.pid)
    requires GoodProgram(j.segs, MEMSIZE_VIRTUAL - 4096) && forall x :: x in j.segs ==> x.Readable()
    requires ProcessSetup(s, j.pid, j.segs, j.regs).Ok?
    ensures ProcessSetup(s, j.pid, j.segs, j.regs) == Ok(s1) && MInv(Checked, s1, tabs1, role1) && Started(s1, tabs1, j)
    ensures forall q :: 0 <= q < 16 && q != j.pid ==> s1.procs[q] == s.procs[q]
    ensures forall i: Job :: Started(s, tabs, i) ==> Started(s1, tabs1, i)
  {
    hide Inv, Exact, Owned, ProcessSetup, GoodProgram, ProgramLoaded, OnlyProgram, OthersPages, FreePages,
         ProgramPages, Slot;
    s1, tabs1, role1 := SetupKeeps(s, tabs, role, j.pid, j.segs, j.regs);
    forall i: Job | Started(s, tabs, i) ensures Started(s1, tabs1, i) {
      assert j.pid !in tabs && i.pid != j.pid;
      OtherProgram(s.lay, s.vm, s1.vm.mem, tabs, role, i.pid, j.pid, i.segs);
    }
  }

  /** Every job is started, whatever is set up after it. */
  lemma {:induction false} SetupAllKeeps(s: State, tabs: TableMap, role: Roles, jobs: seq<Job>)
    returns (s': State, tabs': TableMap, role': Roles)
    requires MInv(Checked, s, tabs, role) && GoodJobs(jobs) && SetupAll(s, jobs).Ok?
    requires forall i :: 0 <= i < |jobs| ==> !Live(s, jobs[i].pid)
    ensures SetupAll(s, jobs) == Ok(s') && MInv(Checked, s', tabs', role')
    ensures forall i :: 0 <= i < |jobs| ==> Started(s', tabs', jobs[i])
    ensures forall i: Job :: Started(s, tabs, i) ==> Started(s', tabs', i)
    ensures forall q :: 0 <= q < 16 && (forall i :: 0 <= i < |jobs| ==> jobs[i].pid != q) ==> s'.procs[q] == s.procs[q]
    decreases |jobs|
  {
    hide MInv, ProcessSetup, GoodProgram, ProgramLoaded, Started;
    if jobs == [] {
      return s, tabs, role;
    }
    var j := jobs[0];
    assert j in jobs;
    var s1, tabs1, role1 := StartsJob(s, tabs, role, j);
    RestGood(s, s1, jobs);
    s', tabs', role' := SetupAllKeeps(s1, tabs1, role1, jobs[1..]);
    forall i | 0 <= i < |jobs| ensures Started(s', tabs', jobs[i]) {
      if i > 0 {
        assert jobs[1..][i - 1] == jobs[i];
      }
    }
    forall q | 0 <= q < 16 && (forall i :: 0 <= i < |jobs| ==> jobs[i].pid != q) ensures s'.procs[q] == s.procs[q] {
      forall i | 0 <= i < |jobs[1..]| ensures jobs[1..][i].pid != q {
        assert jobs[1..][i] == jobs[i + 1];
      }
    }
  }

  lemma RestGood(s: State, s1: State, jobs: seq<Job>)
    requires GoodJobs(jobs) && jobs != [] && forall i :: 0 <= i < |jobs| ==> !Live(s, jobs[i].pid)
    requires forall q :: 0 <= q < 16 && q != jobs[0].pid ==> s1.procs[q] == s.procs[q]
    ensures GoodJobs(jobs[1..]) && forall i :: 0 <= i < |jobs[1..]| ==> !Live(s1, jobs[1..][i].pid)
  {
    hide GoodProgram;
    forall i | 0 <= i < |jobs[1..]|
      ensures !Live(s1, jobs[1..][i].pid) && 1 <= jobs[1..][i].pid
              && GoodProgram(jobs[1..][i].segs, MEMSIZE_VIRTUAL - 4096) {
      var n := i + 1;
      assert jobs[1..][i] == jobs[n] && jobs[n] in jobs && !Live(s, jobs[n].pid);
    }
  }

  /** Every initial state satisfies the strongest invariant, and has exactly the jobs'
      processes, each with its program and registers. */
  lemma InitialGood(s: State, lay: Layout, mem: Memory, jobs: seq<Job>) returns (tabs: TableMap, role: Roles)
    requires Initial(s, lay, mem, jobs)
    ensures MInv(Checked, s, tabs, role) && s.current == 1
    ensures forall i :: 0 <= i < |jobs| ==> Started(s, tabs, jobs[i])
    ensures forall q :: Live(s, q) ==> exists i :: 0 <= i < |jobs| && jobs[i].pid == q
  {
    var s0 := BootState(lay, mem);
    BootGood(lay, mem);
    forall i | 0 <= i < |jobs| ensures !Live(s0, jobs[i].pid) {
      assert jobs[i] in jobs;
    }
    assert forall q :: !Live(s0, q);
    hide BootState, SetupAll, MInv;
    var s1;
    s1, tabs, role := SetupAllKeeps(s0, map[], BootRoles(lay), jobs);
    SameSpaces(Checked, s1, s, tabs, role) by { hide Exact, Owned, Inv; }
    forall i | 0 <= i < |jobs| ensures Started(s, tabs, jobs[i]) {
      assert Started(s1, tabs, jobs[i]);
    }
    forall q | 0 <= q < 16 && (forall i :: 0 <= i < |jobs| ==> jobs[i].pid != q) ensures !Live(s, q) {
      assert !Live(s0, q) && s1.procs[q] == s0.procs[q];
    }
  }

  // ---------------------------------------------------------------------- runs

  ghost predicate Moves(m: Mode, s: State, e: Event, s': State) {
    Allowed(m, s, e) && Step(s, e) == Ok(s')
  }

  ghost predicate Run(m: Mode, ss: seq<State>, es: seq<Event>) {
    |ss| == |es| + 1 && forall i :: 0 <= i < |es| ==> Moves(m, ss[i], es[i], ss[i + 1])
  }

  ghost predicate Good(m: Mode, s: State) {
    exists tabs: TableMap, role: Roles :: MInv(m, s, tabs, role)
  }

  /** A state that satisfies the strongest invariant satisfies every mode's. */
  lemma GoodInAnyMode(m: Mode, s: State, tabs: TableMap, role: Roles)
    requires MInv(Checked, s, tabs, role)
    ensures Good(m, s)
  {
    hide KInv, Exact, Owned;
    assert MInv(m, s, tabs, role);
  }

  lemma GoodStep(m: Mode, s: State, s': State, e: Event)
    requires Good(m, s) && Moves(m, s, e, s')
    ensures Good(m, s')
  {
    hide MInv, Allowed, Step, CheckVirtualMemory;
    var tabs: TableMap, role: Roles :| MInv(m, s, tabs, role);
    if e.Trap? {
      TrapOkIff(m, s, tabs, role, e);
    }
    var s1, tabs', role' := StepKeeps(m, s, tabs, role, e);
  }

  lemma {:induction false} GoodRun(m: Mode, ss: seq<State>, es: seq<Event>, n: nat)
    requires Run(m, ss, es) && Good(m, ss[0]) && n < |ss|
    ensures Good(m, ss[n])
    decreases n
  {
    hide Good, Moves;
    if n > 0 {
      var j := n - 1;
      GoodRun(m, ss, es, j);
      assert Moves(m, ss[j], es[j], ss[j + 1]);
      GoodStep(m, ss[j], ss[n], es[j]);
    }
  }

  // -------------------------------------------------------------------- safety

  /** What holds of one live process. */
  ghost predicate ProcessSafe(s: State, p: nat)
    requires p < 16
  {
    && TablesPrivate(s, p)
    && KernelSpace(s, p)
    && AgreesWithHardware(s, p)
    && SetPagetableOk(s.vm.mem, s.lay, Root(s, p))
    && (forall v :: 256 <= v < 768 ==> WritablePrivate(s, p, v) && NotFree(s, p, v))
  }

  /** No live user mapping points at a free page. */
  predicate NotFree(s: State, p: nat, v: nat)
    requires p < 16 && v < 1024
  {
    var pn := PageBehind(s, p, v);
    pn != -1 ==> 0 < pn < 512 && s.vm.info[pn].refcount > 0
  }

  ghost predicate CountsSafe(m: Mode, s: State, pn: nat)
    requires pn < 512
  {
    !IsSystem(s.lay, pn) ==> CountCovers(s, pn) && (m != Loose ==> CountExact(s, pn))
  }

  ghost predicate Safe(m: Mode, s: State) {
    && s.lay.Valid()
    && (forall p: nat :: p < 16 && Live(s, p) ==> ProcessSafe(s, p))
    && (forall pn: nat :: pn < 512 ==> CountsSafe(m, s, pn))
    && SetPagetableOk(s.vm.mem, s.lay, s.lay.tables)
    && KernelPagesSafe(s)
    && (m == Checked ==> CheckVirtualMemory(s))
  }

  lemma ProcessIsSafe(s: State, tabs: TableMap, role: Roles, p: nat)
    requires KInv(s, tabs, role) && p < 16 && Live(s, p)
    ensures ProcessSafe(s, p)
  {
    assert p in tabs;
    hide Inv, TablesPrivate, KernelSpace, AgreesWithHardware, SetPagetableOk, WritablePrivate, NotFree;
    TablesArePrivate(s, tabs, role, p);
    KernelSpaceKept(s, tabs, role, p);
    HardwareAgreement(s, tabs, role, p);
    LiveActivates(s.lay, s.vm, tabs, role, p);
    forall v | 256 <= v < 768 ensures WritablePrivate(s, p, v) && NotFree(s, p, v) {
      WritableIsPrivate(s, tabs, role, p, v);
      MappedNotFree(s, tabs, role, p, v);
    }
  }

  lemma MappedNotFree(s: State, tabs: TableMap, role: Roles, p: nat, v: nat)
    requires KInv(s, tabs, role) && p < 16 && Live(s, p) && 256 <= v < 768
    ensures NotFree(s, p, v)
  {
    BehindRole(s, tabs, role, p, v);
    var pn := PageBehind(s, p, v);
    if pn != -1 {
      assert PageOk(s.lay, s.vm, tabs, role, pn);
    }
  }

  lemma GoodIsSafe(m: Mode, s: State)
    requires Good(m, s)
    ensures Safe(m, s)
  {
    var tabs: TableMap, role: Roles :| MInv(m, s, tabs, role);
    assert s.lay.Valid();
    hide Inv, Exact, Owned, ProcessSafe, CountsSafe, CheckVirtualMemory, SetPagetableOk;
    KernelTableKept(s.lay, s.vm, tabs, role);
    KernelPagesAreSafe(s, tabs, role);
    forall p: nat | p < 16 && Live(s, p) ensures ProcessSafe(s, p) {
      ProcessIsSafe(s, tabs, role, p);
    }
    forall pn: nat | pn < 512 ensures CountsSafe(m, s, pn) {
      CountIsSafe(m, s, tabs, role, pn);
    }
    if m == Checked {
      SelfCheckHolds(s, tabs, role);
    }
  }

  lemma CountIsSafe(m: Mode, s: State, tabs: TableMap, role: Roles, pn: nat)
    requires MInv(m, s, tabs, role) && pn < 512
    ensures CountsSafe(m, s, pn)
  {
    hide Inv, Exact, Owned, CountCovers, CountExact;
    if !IsSystem(s.lay, pn) {
      CountsByRole(s, tabs, role, pn);
    }
  }

  /** Every state of every run from power-on is safe. */
  lemma EveryRunIsSafe(m: Mode, lay: Layout, mem: Memory, jobs: seq<Job>, ss: seq<State>, es: seq<Event>)
    requires Run(m, ss, es) && Initial(ss[0], lay, mem, jobs)
    ensures forall i :: 0 <= i < |ss| ==> Safe(m, ss[i])
  {
    hide Initial, Safe, Good, Allowed, Step, MInv;
    var tabs, role := InitialGood(ss[0], lay, mem, jobs);
    GoodInAnyMode(m, ss[0], tabs, role);
    forall i | 0 <= i < |ss| ensures Safe(m, ss[i]) {
      GoodRun(m, ss, es, i);
      GoodIsSafe(m, ss[i]);
    }
  }

  /** In every mode, an allowed step out of a run stops the kernel exactly when it
      traps while the self-check fails; in checked runs none does. */
  lemma NoRunPanics(m: Mode, lay: Layout, mem: Memory, jobs: seq<Job>, ss: seq<State>, es: seq<Event>, e: Event)
    requires Run(m, ss, es) && Initial(ss[0], lay, mem, jobs) && Allowed(m, ss[|es|], e)
    ensures Step(ss[|es|], e).Ok? <==> e.Store? || CheckVirtualMemory(ss[|es|])
    ensures m == Checked ==> Step(ss[|es|], e).Ok?
  {
    hide Initial, Allowed, Step, MInv, Safe, CheckVirtualMemory;
    var s := ss[|es|];
    RunGood(m, lay, mem, jobs, ss, es);
    GoodIsSafe(m, s);
    SafeChecked(m, s);
    var tabs: TableMap, role: Roles :| MInv(m, s, tabs, role);
    if e.Store? {
      var s', tabs', role' := StepKeeps(m, s, tabs, role, e);
    } else {
      TrapOkIff(m, s, tabs, role, e);
    }
  }

  lemma RunGood(m: Mode, lay: Layout, mem: Memory, jobs: seq<Job>, ss: seq<State>, es: seq<Event>)
    requires Run(m, ss, es) && Initial(ss[0], lay, mem, jobs)
    ensures Good(m, ss[|es|])
  {
    hide Initial, Moves, MInv;
    var tabs, role := InitialGood(ss[0], lay, mem, jobs);
    GoodInAnyMode(m, ss[0], tabs, role);
    GoodRun(m, ss, es, |es|);
  }

  lemma SafeChecked(m: Mode, s: State)
    requires Safe(m, s)
    ensures m == Checked ==> CheckVirtualMemory(s)
  {
    hide ProcessSafe, CountsSafe, SetPagetableOk, CheckVirtualMemory;
  }

  /** Without any guard: a trap out of a run stops the kernel exactly when the
      self-check fails, a misaligned page_alloc has a page to map, or a fork finds a
      slot but fewer than five free pages. */
  lemma RunPanicsIff(m: Mode, lay: Layout, mem: Memory, jobs: seq<Job>, ss: seq<State>, es: seq<Event>, e: Event)
    requires Run(m, ss, es) && Initial(ss[0], lay, mem, jobs) && Enabled(ss[|es|], e) && e.Trap?
    ensures Step(ss[|es|], e).Panic? <==> !CheckVirtualMemory(ss[|es|]) || Refused(ss[|es|], e.call)
  {
    hide Initial, Moves, Step, CheckVirtualMemory, KInv, Exact, Owned, Refused;
    RunGood(m, lay, mem, jobs, ss, es);
    var tabs: TableMap, role: Roles :| MInv(m, ss[|es|], tabs, role);
    TrapPanicsIff(ss[|es|], tabs, role, e);
  }

  /** And a fork out of a run that completes gives the child a copy of every user page
      exactly when there were five free pages and one for each writable page. */
  lemma RunForkCopiesIff(m: Mode, lay: Layout, mem: Memory, jobs: seq<Job>, ss: seq<State>, es: seq<Event>, e: Event,
                         s': State)
    requires Run(m, ss, es) && Initial(ss[0], lay, mem, jobs)
    requires Enabled(ss[|es|], e) && e.Trap? && e.call == Fork && FreeSlot(ss[|es|].procs, 1) < 16
    requires Step(ss[|es|], e) == Ok(s')
    ensures AllCopied(Saved(ss[|es|], e.regs), s', FreeSlot(ss[|es|].procs, 1))
       <==> HasMemory(ss[|es|].vm, TablesOf(ss[|es|], ss[|es|].current))
  {
    hide Initial, Moves, Step, KInv, Exact, Owned, FreeSlot, HasMemory, TablesOf, AllCopied;
    RunGood(m, lay, mem, jobs, ss, es);
    var tabs: TableMap, role: Roles :| MInv(m, ss[|es|], tabs, role);
    ForkTrapCopiesIff(ss[|es|], s', tabs, role, e);
  }

  // --------------------------------------------------------------------- steps

  /** What holds of one step: other processes are undisturbed, stores are confined,
      traps keep and answer registers and choose the next process as they should,
      forks are deep copies, and only an exit that leaves a page on record to the
      process makes the self-check fail. */
  ghost predicate StepSafe(s: State, e: Event, s': State) {
    && s.current < 16
    && (forall q: nat :: q < 16 && Live(s, q) && q != s.current ==> Undisturbed(s, s', q))
    && (e.Store? ==> StoreConfined(s, s', e.va) && Stored(s.vm.mem, s'.vm.mem, Root(s, s.current), e.va, e.w))
    && (e.Trap? ==> TrapEffect(s, e.regs, e.call, s'))
    && (e.Trap? && e.call.PageAlloc? && GoodRequest(s.vm.mem, TablesOf(s, s.current), e.call.addr) ==>
          Served(s, e.call.addr, s'))
    && (e.Trap? && e.call == Fork && FreeSlot(s.procs, 1) < 16 ==> DeepCopy(Saved(s, e.regs), s', FreeSlot(s.procs, 1)))
    && (CheckVirtualMemory(s') <==> CheckVirtualMemory(s) && Releases(s, e))
  }

  lemma ForkStepCopies(m: Mode, s: State, s': State, tabs: TableMap, role: Roles, e: Event)
    requires MInv(m, s, tabs, role) && Moves(m, s, e, s') && e.Trap? && e.call == Fork && FreeSlot(s.procs, 1) < 16
    ensures DeepCopy(Saved(s, e.regs), s', FreeSlot(s.procs, 1))
  {
    hide Inv, Exact, Owned, FreeSlot, SysFork, DeepCopy, Step, Allowed, TablesOf, ForkGuard, CheckVirtualMemory,
         ProcsOk, Handle, Dispatch;
    AllowedRuns(m, s, e);
    var s0 := Saved(s, e.regs);
    TrapOkIff(m, s, tabs, role, e);
    var s1, s2, tabs', role' := TrapKeeps(m, s, tabs, role, e);
    SavedKeeps(m, s, tabs, role, e.regs);
    AllowedSaved(m, s, s0, e);
    FreeSlotSaved(s.procs, s0.procs, 1);
    GuardHolds(m, s0, tabs, role);
    var s3 := ForkIsDeepCopy(s0, tabs, role);
    ForkHandled(s0, s1);
    CopyRuns(s0, s3, FreeSlot(s.procs, 1));
  }

  lemma ForkHandled(s: State, s': State)
    requires s.current < 16 && Handle(s, Fork) == Ok(s')
    ensures SysFork(s) == Ok(s')
  {
    hide SysFork;
  }

  lemma CopyRuns(s: State, s': State, c: nat)
    requires s.current < 16 && c < 16 && DeepCopy(s, s', c)
    ensures s'.current == s.current && s'.procs[s.current].state == s.procs[s.current].state
  {
    hide CopiedPageAt, FreshDistinct, Lookup, FreePages, ToCopy, TablesOf;
  }

  lemma GoodStepSafe(m: Mode, s: State, e: Event, s': State)
    requires Good(m, s) && Moves(m, s, e, s')
    ensures StepSafe(s, e, s')
  {
    var tabs: TableMap, role: Roles :| MInv(m, s, tabs, role);
    assert Live(s, s.current);
    hide Inv, Exact, Owned, Step, Undisturbed, StoreConfined, DeepCopy, FreeSlot, UserWritable, TableAt, HasMemory,
         RoomToShare, CheckVirtualMemory, Releases, TrapEffect, Stored, Served, GoodRequest;
    CheckAfterStep(m, s, s', tabs, role, e);
    if e.Trap? {
      TrapMeaning(s, e.regs, e.call, s');
      if e.call.PageAlloc? && GoodRequest(s.vm.mem, TablesOf(s, s.current), e.call.addr) {
        PageAllocMeaning(s, tabs, role, e.regs, e.call.addr, s');
      }
    }
    forall q: nat | q < 16 && Live(s, q) && q != s.current ensures Undisturbed(s, s', q) {
      StepUndisturbed(m, s, s', tabs, role, e, q);
    }
    if e.Store? {
      Isolation(s, s', tabs, role, e.va, e.w);
      StoreMeaning(s, tabs, role, e.va, e.w, s');
    } else if e.call == Fork && FreeSlot(s.procs, 1) < 16 {
      ForkStepCopies(m, s, s', tabs, role, e);
    }
  }

  /** Every step of every run from power-on is safe. */
  lemma EveryStepIsSafe(m: Mode, lay: Layout, mem: Memory, jobs: seq<Job>, ss: seq<State>, es: seq<Event>)
    requires Run(m, ss, es) && Initial(ss[0], lay, mem, jobs)
    ensures forall i :: 0 <= i < |es| ==> StepSafe(ss[i], es[i], ss[i + 1])
  {
    hide Initial, StepSafe, Good, Moves, MInv;
    var tabs, role := InitialGood(ss[0], lay, mem, jobs);
    GoodInAnyMode(m, ss[0], tabs, role);
    forall i | 0 <= i < |es| ensures StepSafe(ss[i], es[i], ss[i + 1]) {
      GoodRun(m, ss, es, i);
      GoodStepSafe(m, ss[i], es[i], ss[i + 1]);
    }
  }

  // ---------------------------------------------------------------- self-checks

  lemma {:induction false} ChecksPassIff(m: Mode, ss: seq<State>, es: seq<Event>, n: nat)
    requires Run(m, ss, es) && Good(m, ss[0]) && CheckVirtualMemory(ss[0]) && n <= |es|
    ensures (forall i :: 0 <= i <= n ==> CheckVirtualMemory(ss[i])) <==>
              (forall i :: 0 <= i < n ==> Releases(ss[i], es[i]))
    decreases n
  {
    hide Good, Moves, CheckVirtualMemory, Releases;
    if n > 0 {
      var j := n - 1;
      ChecksPassIff(m, ss, es, j);
      GoodRun(m, ss, es, j);
      assert Moves(m, ss[j], es[j], ss[j + 1]);
      CheckAfterMove(m, ss[j], es[j], ss[n]);
    }
  }

  lemma CheckAfterMove(m: Mode, s: State, e: Event, s': State)
    requires Good(m, s) && Moves(m, s, e, s')
    ensures CheckVirtualMemory(s') <==> CheckVirtualMemory(s) && Releases(s, e)
  {
    hide MInv, Allowed, Step, CheckVirtualMemory, Releases;
    var tabs: TableMap, role: Roles :| MInv(m, s, tabs, role);
    CheckAfterStep(m, s, s', tabs, role, e);
  }

  /** In every mode, check_virtual_memory passes in every state of a run from power-on
      exactly when every exit in it releases each page on record to the process. */
  lemma SelfCheckIff(m: Mode, lay: Layout, mem: Memory, jobs: seq<Job>, ss: seq<State>, es: seq<Event>)
    requires Run(m, ss, es) && Initial(ss[0], lay, mem, jobs)
    ensures (forall i :: 0 <= i < |ss| ==> CheckVirtualMemory(ss[i])) <==>
              (forall i :: 0 <= i < |es| ==> Releases(ss[i], es[i]))
  {
    hide Initial, Moves, CheckVirtualMemory, Releases, MInv, Safe, Good;
    var tabs, role := InitialGood(ss[0], lay, mem, jobs);
    GoodInAnyMode(m, ss[0], tabs, role);
    GoodInAnyMode(Checked, ss[0], tabs, role);
    GoodIsSafe(Checked, ss[0]);
    SafeChecked(Checked, ss[0]);
    ChecksPassIff(m, ss, es, |es|);
  }
}
