/** kernel.c: processes, system calls and interrupts as steps of a state machine. */
module Kernel {
  import opened X86
  import opened Paging
  import opened Tables
  import opened Spaces
  import opened Alloc
  import opened Duplicate
  import opened Forks
  import opened Exits
  import opened Activation

  // -------------------------------------------------------------------- state

  /** The saved registers; `rest` is everything the kernel never inspects. */
  datatype Registers = Registers(rax: Word, rdi: Word, rest: seq<Word>)

  datatype ProcState = P_FREE | P_RUNNABLE | P_BLOCKED | P_BROKEN

  /** A process descriptor; its pid is its index. */
  datatype Proc = Proc(regs: Registers, state: ProcState, pagetable: nat)

  type Procs = s: seq<Proc> | |s| == 16 witness seq(16, _ => Proc(Registers(0, 0, []), P_FREE, 0))

  datatype State = State(lay: Layout, vm: VM, procs: Procs, current: nat)

  datatype Call =
    | GetPid
    | Yield
    | PageAlloc(addr: Va)   // the address is the saved %rdi: see Carries
    | Fork
    | Exit
    | Timer
    | PageFault             // from user mode

  /** User code of the current process stores a word or enters the kernel. */
  datatype Event = Store(va: Va, w: Word) | Trap(regs: Registers, call: Call)

  predicate Live(s: State, p: int) {
    0 <= p < 16 && s.procs[p].state != P_FREE
  }

  // ---------------------------------------------------------------- self-check

  const KERNEL_START_ADDR := 0x40000
  const KERNEL_STACK_PAGE := 0x7F000

  /** The loop of check_page_table_mappings, from address `va` on. */
  predicate MappedFrom(mem: Memory, root: nat, lay: Layout, va: Va)
    requires lay.Valid()
    decreases lay.end - va
  {
    va >= lay.end ||
    (&& Lookup(mem, root, va).pa == va
     && (va >= lay.startData ==> Writable(Lookup(mem, root, va).perm))
     && MappedFrom(mem, root, lay, va + 4096))
  }

  predicate MappingsOk(mem: Memory, root: nat, lay: Layout)
    requires lay.Valid()
  {
    && MappedFrom(mem, root, lay, KERNEL_START_ADDR)
    && Lookup(mem, root, KERNEL_STACK_PAGE).pa == KERNEL_STACK_PAGE
    && Writable(Lookup(mem, root, KERNEL_STACK_PAGE).perm)
  }

  /** check_page_table_ownership_level: this page, and below level 3 every page a
      nonzero entry leads to, has the expected owner and count. */
  predicate OwnershipOk(mem: Memory, info: Info, pt: nat, level: nat, owner: int, refcount: int)
    requires level <= 3
    decreases 3 - level
  {
    && pt < 512
    && info[pt].owner == owner
    && info[pt].refcount == refcount
    && (level < 3 ==> forall i :: 0 <= i < 512 && mem[pt][i] != 0 ==>
      OwnershipOk(mem, info, Frame(mem[pt][i]), level + 1, owner, 1))
  }

  /** Live processes still on the kernel's own table. */
  function KernelUsers(s: State): set<nat> {
    set p: nat | p < 16 && Live(s, p) && s.procs[p].pagetable == s.lay.tables
  }

  predicate RecordOk(s: State, pn: nat)
    requires pn < 512
  {
    s.vm.info[pn].refcount > 0 && s.vm.info[pn].owner >= 0 ==> Live(s, s.vm.info[pn].owner)
  }

  predicate ProcessOk(s: State, p: nat)
    requires p < 16 && s.lay.Valid()
  {
    Live(s, p) && s.procs[p].pagetable != s.lay.tables ==>
      && MappingsOk(s.vm.mem, s.procs[p].pagetable, s.lay)
      && OwnershipOk(s.vm.mem, s.vm.info, s.procs[p].pagetable, 0, p, 1)
  }

  /** Every assert of check_virtual_memory holds. */
  predicate CheckVirtualMemory(s: State) {
    && s.lay.Valid()
    && s.procs[0].state == P_FREE
    && MappingsOk(s.vm.mem, s.lay.tables, s.lay)
    && OwnershipOk(s.vm.mem, s.vm.info, s.lay.tables, 0, PO_KERNEL, 1 + |KernelUsers(s)|)
    && (forall p: nat :: p < 16 ==> ProcessOk(s, p))
    && (forall pn: nat :: pn < 512 ==> RecordOk(s, pn))
  }

  // --------------------------------------------------------------- scheduling

  /** The search of `schedule` (kernel.c:454-464), at most `n` slots after `pid`;
      16 when none of them is runnable. */
  function NextRunnable(procs: Procs, pid: nat, n: nat): (q: nat)
    ensures q < 16 ==> procs[q].state == P_RUNNABLE
    decreases n
  {
    if n == 0 then 16
    else
      var q := (pid + 1) % 16;
      if procs[q].state == P_RUNNABLE then q else NextRunnable(procs, q, n - 1)
  }

  /** `schedule` then `run`; with nothing runnable the kernel spins and `current`
      stays on a process that cannot take a step. */
  function Dispatch(s: State): (r: State)
    ensures r.current != s.current ==> r.current < 16 && s.procs[r.current].state == P_RUNNABLE
  {
    var q := NextRunnable(s.procs, s.current, 16);
    if q < 16 then s.(current := q) else s
  }

  // -------------------------------------------------------------- system calls

  /** First free slot from `i` on, or 16. */
  function FreeSlot(procs: Procs, i: nat): (r: nat)
    requires i <= 16
    ensures i <= r <= 16
    ensures r < 16 ==> procs[r].state == P_FREE
    ensures forall j :: i <= j < r ==> procs[j].state != P_FREE
    decreases 16 - i
  {
    if i == 16 || procs[i].state == P_FREE then i else FreeSlot(procs, i + 1)
  }

  function ToWord(x: int): Word
    requires -0x8000_0000 <= x < 0x8000_0000
  {
    if x < 0 then x + 0x1_0000_0000_0000_0000 else x
  }

  function SetRax(procs: Procs, p: nat, x: int): Procs
    requires p < 16 && -0x8000_0000 <= x < 0x8000_0000
  {
    procs[p := procs[p].(regs := procs[p].regs.(rax := ToWord(x)))]
  }

  /** INT_SYS_FORK. When duplicate_pagetable fails, `exception` returns into
      assembly that never expects it to; that is not a state of this model. */
  function SysFork(s: State): (r: Result<State>)
    requires s.current < 16
  {
    var c := FreeSlot(s.procs, 1);
    if c == 16 then
      Ok(s.(procs := SetRax(s.procs, s.current, -1)))
    else
      var (vm, child) :- ForkSpace(s.vm, s.procs[s.current].pagetable, c);
      if child == 0 then
        Panic
      else
        var procs := s.procs[c := Proc(s.procs[s.current].regs.(rax := 0), P_RUNNABLE, child)];
        Ok(s.(vm := vm, procs := SetRax(procs, s.current, c)))
  }

  function SysExit(s: State): State
    requires s.current < 16
  {
    var p := s.procs[s.current];
    s.(vm := ExitSpace(s.vm, p.pagetable, s.current), procs := s.procs[s.current := p.(state := P_FREE)])
  }

  function SysPageAlloc(s: State, addr: Va): (r: Result<State>)
    requires s.current < 16
  {
    var (vm, x) :- AllocAt(s.vm, s.procs[s.current].pagetable, s.current, addr);
    Ok(s.(vm := vm, procs := SetRax(s.procs, s.current, if x == 0 then 0 else -1)))
  }

  /** The switch of `exception` (kernel.c:292-438), registers already saved. */
  function Handle(s: State, call: Call): (r: Result<State>)
    requires s.current < 16
    ensures r.Ok? ==> r.value.current == s.current
  {
    match call
    case GetPid => Ok(s.(procs := SetRax(s.procs, s.current, s.current)))
    case Yield => Ok(s)
    case Timer => Ok(s)
    case PageAlloc(addr) => SysPageAlloc(s, addr)
    case Fork => SysFork(s)
    case Exit => Ok(SysExit(s))
    case PageFault => Ok(s.(procs := s.procs[s.current := s.procs[s.current].(state := P_BROKEN)]))
  }

  /** Does the kernel leave through `schedule` rather than `run(current)`? */
  predicate Reschedules(s: State, call: Call)
    requires s.current < 16
  {
    call == Yield || call == Timer || s.procs[s.current].state != P_RUNNABLE
  }

  /** The registers of a trap are saved first. */
  function Saved(s: State, regs: Registers): State
    requires s.current < 16
  {
    s.(procs := s.procs[s.current := s.procs[s.current].(regs := regs)])
  }

  /** `exception` up to the choice between `run` and `schedule`: the kernel's table is
      activated and the whole machine checked before the switch (kernel.c:267-280). */
  function Trapped(s: State, regs: Registers, call: Call): (r: Result<State>)
    requires s.current < 16
    ensures r.Ok? ==> r.value.current == s.current
  {
    var s0 := Saved(s, regs);
    if SetPagetableOk(s0.vm.mem, s0.lay, s0.lay.tables) && CheckVirtualMemory(s0) then Handle(s0, call) else Panic
  }

  /** `run(current)` (kernel.c:473-478). Nothing is activated while schedule spins. */
  function RunCurrent(s: State): (r: Result<State>)
    requires s.current < 16
  {
    var p := s.procs[s.current];
    if p.state == P_RUNNABLE && !SetPagetableOk(s.vm.mem, s.lay, p.pagetable) then Panic else Ok(s)
  }

  function Exception(s: State, regs: Registers, call: Call): (r: Result<State>)
    requires s.current < 16
  {
    var s1 :- Trapped(s, regs, call);
    RunCurrent(if Reschedules(s1, call) then Dispatch(s1) else s1)
  }

  /** Whether the processor lets user code of table `root` write `va`. */
  predicate UserWritable(mem: Memory, root: nat, va: Va) {
    && Present(E4(mem, root, va))
    && HardwareWritable(mem, root, va) && HardwareUser(mem, root, va)
  }

  /** A user store replaces the 8-byte word that contains `va`. */
  function StoreWord(mem: Memory, root: nat, va: Va, w: Word): Memory {
    var f := Frame(E4(mem, root, va));
    if f < 512 then SetEntry(mem, f, va % 4096 / 8, w) else mem
  }

  /** A page_alloc finds its argument in %rdi (kernel.c:318). */
  predicate Carries(regs: Registers, call: Call) {
    call.PageAlloc? ==> regs.rdi == call.addr
  }

  predicate Enabled(s: State, e: Event) {
    && s.current < 16 && s.procs[s.current].state == P_RUNNABLE
    && (e.Trap? ==> Carries(e.regs, e.call))
    && (e.Store? ==> UserWritable(s.vm.mem, s.procs[s.current].pagetable, e.va))
  }

  function Step(s: State, e: Event): (r: Result<State>)
    requires Enabled(s, e)
  {
    match e
    case Store(va, w) =>
      Ok(s.(vm := VM(StoreWord(s.vm.mem, s.procs[s.current].pagetable, va, w), s.vm.info)))
    case Trap(regs, call) => Exception(s, regs, call)
  }

  // ---------------------------------------------------------------- invariant

  /** The live processes are exactly those with a table, and slot 0 is unused. */
  ghost predicate ProcsOk(s: State, tabs: TableMap) {
    && s.current < 16
    && s.procs[0].state == P_FREE
    && (forall p :: p in tabs <==> Live(s, p))
    && (forall p :: p in tabs ==> s.procs[p].pagetable == tabs[p].l1)
  }

  ghost predicate KInv(s: State, tabs: TableMap, role: Roles) {
    ProcsOk(s, tabs) && Inv(s.lay, s.vm, tabs, role)
  }

  /** How much a run promises about its page_allocs and exits. */
  datatype Mode = Loose | Tight | Checked

  ghost predicate MInv(m: Mode, s: State, tabs: TableMap, role: Roles) {
    && KInv(s, tabs, role)
    && (m != Loose ==> Exact(s.vm, tabs, role))
    && (m == Checked ==> Owned(s.vm, tabs, role))
  }

  /** Every step: forks have memory (and, unless counts are exact, room in the
      counts), and page_alloc addresses pass the alignment assert. `Tight` runs
      make only good page_alloc requests. In `Checked` runs no process exits while
      it owns a page with two or more references. */
  predicate Allowed(m: Mode, s: State, e: Event) {
    && Enabled(s, e)
    && (e.Trap? ==>
          var t := TableAt(s.vm.mem, s.procs[s.current].pagetable);
          match e.call
          case Fork => FreeSlot(s.procs, 1) < 16 ==> HasMemory(s.vm, t) && (m == Loose ==> RoomToShare(s.vm, t))
          case PageAlloc(addr) => if m == Loose then addr % 4096 == 0 || addr < PROC_START_ADDR
                                  else GoodRequest(s.vm.mem, t, addr)
          case Exit => m == Checked ==> forall x :: 0 <= x < 512 && s.vm.info[x].owner == s.current ==>
              s.vm.info[x].refcount < 2
          case _ => true)
  }

  /** Five pages for the child's table and one for each page it must copy. */
  predicate HasMemory(k: VM, t: Table) {
    |FreePages(k.info)| >= 5 + |ToCopy(k.mem, t, 256)|
  }
}
