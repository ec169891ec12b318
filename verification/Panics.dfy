/** Exactly when a trap stops the kernel. The fork loop never does: it goes on, with
    page 0, when memory runs out. */
module Panics {
  import opened X86
  import opened Paging
  import opened Tables
  import opened Spaces
  import opened Alloc
  import opened Duplicate
  import opened Forks
  import opened Exits
  import opened Activation
  import opened Kernel
  import opened Steps
  import opened SelfCheck

  // -------------------------------------------------- the fork loop without memory

  /** What the fork loop needs of the two tables on every path. */
  ghost predicate Sane(k: VM, tp: Table, tc: Table) {
    && Wired(k.mem, tp) && Wired(k.mem, tc) && Disjoint(tp, tc)
    && InUse(k.info, tp) && InUse(k.info, tc) && !tp.Has(0) && !tc.Has(0)
    && forall u :: 256 <= u < 768 ==> SaneSlot(tp, tc, Slot(k.mem, tp, u))
  }

  ghost predicate SaneSlot(tp: Table, tc: Table, e: Word) {
    e == 0 || (var f := Frame(e);
      0 < f < 512 && f != 0xB8 && !tp.Has(f) && !tc.Has(f) && (e == Full(f) || e == ReadOnly(f)))
  }

  lemma SaneWired(k: VM, tp: Table, tc: Table)
    requires Sane(k, tp, tc)
    ensures Wired(k.mem, tp) && Wired(k.mem, tc)
  {
  }

  /** Writing a page outside both tables, and any slot of the child, keeps them. */
  lemma SaneWrite(k: VM, tp: Table, tc: Table, m: Memory, info: Info, v: nat, w: Word)
    requires Sane(k, tp, tc) && v < 1024
    requires forall x :: 0 <= x < 512 && (tp.Has(x) || tc.Has(x)) ==> m[x] == k.mem[x]
    requires InUse(info, tp) && InUse(info, tc)
    ensures Wired(m, tc) && Sane(VM(WriteSlot(m, tc, v, w), info), tp, tc)
    ensures forall u :: 0 <= u < 1024 ==> Slot(WriteSlot(m, tc, v, w), tp, u) == Slot(k.mem, tp, u)
    ensures forall u :: 0 <= u < 1024 ==>
              Slot(WriteSlot(m, tc, v, w), tc, u) == if u == v then w else Slot(k.mem, tc, u)
  {
    assert tp.Has(tp.l1) && tp.Has(tp.l2) && tp.Has(tp.l3) && tp.Has(tp.lo) && tp.Has(tp.hi);
    assert tc.Has(tc.l1) && tc.Has(tc.l2) && tc.Has(tc.l3) && tc.Has(tc.lo) && tc.Has(tc.hi);
    TableFrame(k.mem, m, tc);
    WriteSlotKeeps(m, tc, v, w);
    var m' := WriteSlot(m, tc, v, w);
    hide WriteSlot;
    TableFrame(k.mem, m', tp);
  }

  /** The page the loop allocates is in neither table. */
  lemma SaneAlloc(k: VM, tp: Table, tc: Table, pid: int)
    requires Sane(k, tp, tc)
    ensures var (info, page) := AllocPage(k.info, pid);
            page < 512 && !tp.Has(page) && !tc.Has(page) && InUse(info, tp) && InUse(info, tc)
  {
    hide Wired, Slot, FindFree;
  }

  /** The copying iteration with whatever page the allocation gave, 0 included. */
  lemma SaneCopy(k: VM, tp: Table, tc: Table, pid: int, v: nat, f: nat, info: Info, page: nat, m: Memory)
    requires Wired(k.mem, tp) && Wired(m, tc) && 256 <= v < 768 && 0 < f < 512 && f != 0xB8 && page < 512
    requires Slot(k.mem, tp, v) == Full(f) && (info, page) == AllocPage(k.info, pid) && m == k.mem[page := k.mem[f]]
    ensures tc.Distinct()
    ensures ForkPage(k, tp.l1, tc.l1, pid, v) == Ok(VM(WriteSlot(m, tc, v, Full(page)), info))
  {
    WiredDistinct(m, tc);
    assert f * 4096 / 4096 == f;
    hide Wired, Slot, Lookup, MapPage, AllocPage, Writable, Full, MapArgs, LeafEntry, Decode, WriteSlot;
    UserLookup(k.mem, tp, v);
    DecodeForms(f);
    FormArgs(v, page);
    MapPageWired(m, tc, v, page * 4096, 7);
  }

  /** Page `x` is in use, and neither the child's table nor a user page of the parent. */
  ghost predicate Aside(k: VM, tp: Table, tc: Table, x: int) {
    && 0 < x < 512 && k.info[x].refcount != 0 && !tc.Has(x)
    && forall u :: 256 <= u < 768 && Slot(k.mem, tp, u) != 0 ==> Frame(Slot(k.mem, tp, u)) != x
  }

  /** One iteration is a copy `m` of at most one page, then one slot of the child. */
  ghost predicate Iteration(k: VM, tp: Table, tc: Table, m: Memory, info: Info) {
    && (forall x :: 0 <= x < 512 && (tp.Has(x) || tc.Has(x)) ==> m[x] == k.mem[x])
    && InUse(info, tp) && InUse(info, tc)
    && forall x :: Aside(k, tp, tc, x) ==> m[x] == k.mem[x] && info[x] == k.info[x]
  }

  /** The records and the child's entry after an iteration, by the parent's entry. */
  ghost predicate IterationForm(k: VM, e: Word, pid: int, info: Info, w: Word) {
    var f, (i, page) := Frame(e), AllocPage(k.info, pid);
    if e == 0 then info == k.info && w == 0
    else f < 512 && if e == ReadOnly(f) then info == IncRef(k.info, f) && w == e
                    else e == Full(f) && info == i && page < 512 && w == Full(page)
  }

  lemma SaneForm(k: VM, tp: Table, tc: Table, pid: int, v: nat) returns (m: Memory, info: Info, w: Word)
    requires Sane(k, tp, tc) && 256 <= v < 768
    ensures IterationForm(k, Slot(k.mem, tp, v), pid, info, w)
    ensures tc.Distinct() && ForkPage(k, tp.l1, tc.l1, pid, v) == Ok(VM(WriteSlot(m, tc, v, w), info))
            && Iteration(k, tp, tc, m, info)
  {
    var e := Slot(k.mem, tp, v);
    var f := Frame(e);
    assert SaneSlot(tp, tc, e);
    hide Sane, Iteration, Wired, Slot, ForkPage, AllocPage, Full, ReadOnly, WriteSlot, Frame;
    if e == 0 {
      SaneUnmapped(k, tp, tc, pid, v);
      m, info, w := k.mem, k.info, 0;
      IterationSame(k, tp, tc);
    } else if e == ReadOnly(f) {
      m, info, w := SaneShares(k, tp, tc, pid, v, f);
    } else {
      m, info, w := SaneCopies(k, tp, tc, pid, v, f);
    }
  }

  lemma IterationSame(k: VM, tp: Table, tc: Table)
    requires Sane(k, tp, tc)
    ensures Iteration(k, tp, tc, k.mem, k.info)
  {
    hide Wired, Slot, SaneSlot;
  }

  lemma SaneShares(k: VM, tp: Table, tc: Table, pid: int, v: nat, f: nat) returns (m: Memory, info: Info, w: Word)
    requires Sane(k, tp, tc) && 256 <= v < 768 && f < 512 && Slot(k.mem, tp, v) == ReadOnly(f) && ReadOnly(f) != 0
    requires f != 0xB8 && f != 0 && !tp.Has(f) && !tc.Has(f) && Frame(ReadOnly(f)) == f
    ensures tc.Distinct() && ForkPage(k, tp.l1, tc.l1, pid, v) == Ok(VM(WriteSlot(m, tc, v, w), info))
            && Iteration(k, tp, tc, m, info)
    ensures info == IncRef(k.info, f) && w == ReadOnly(f)
  {
    hide Wired, Slot, ForkPage, ReadOnly, WriteSlot, Frame, Disjoint, ToInt8, SaneSlot;
    ForkShares(k, tp, tc, pid, v, f);
    m, info, w := k.mem, IncRef(k.info, f), ReadOnly(f);
  }

  lemma SaneCopies(k: VM, tp: Table, tc: Table, pid: int, v: nat, f: nat) returns (m: Memory, info: Info, w: Word)
    requires Sane(k, tp, tc) && 256 <= v < 768 && 0 < f < 512 && f != 0xB8 && Slot(k.mem, tp, v) == Full(f)
    ensures tc.Distinct() && ForkPage(k, tp.l1, tc.l1, pid, v) == Ok(VM(WriteSlot(m, tc, v, w), info))
            && Iteration(k, tp, tc, m, info)
    ensures var page := AllocPage(k.info, pid).1; info == AllocPage(k.info, pid).0 && page < 512 && w == Full(page)
  {
    hide Sane, Wired, Slot, ForkPage, AllocPage, Full, WriteSlot, Frame, InUse;
    SaneWired(k, tp, tc);
    SaneAlloc(k, tp, tc, pid);
    AllocRecord(k.info, pid);
    var page := AllocPage(k.info, pid).1;
    info, m, w := AllocPage(k.info, pid).0, k.mem[page := k.mem[f]], Full(page);
    SaneWrite(k, tp, tc, m, info, v, w);
    SaneCopy(k, tp, tc, pid, v, f, info, page, m);
  }

  lemma AllocRecord(info: Info, pid: int)
    ensures var (i, page) := AllocPage(info, pid);
            page < 512 && (page != 0 ==> info[page].refcount == 0) && forall x :: 0 <= x < 512 && x != page ==>
              i[x] == info[x]
  {
    hide FindFree;
  }

  lemma SaneUnmapped(k: VM, tp: Table, tc: Table, pid: int, v: nat)
    requires Sane(k, tp, tc) && 256 <= v < 768 && Slot(k.mem, tp, v) == 0
    ensures tc.Distinct() && ForkPage(k, tp.l1, tc.l1, pid, v) == Ok(VM(WriteSlot(k.mem, tc, v, 0), k.info))
  {
    hide Sane, Wired, Slot, Lookup, MapPage, AllocPage, Writable, MapArgs, LeafEntry, Decode, WriteSlot, ToInt8, Full,
         ReadOnly;
    SaneWired(k, tp, tc);
    WiredDistinct(k.mem, tc);
    UserLookup(k.mem, tp, v);
    DecodeForms(0);
    FormArgs(v, 0);
    MapPageWired(k.mem, tc, v, UNMAPPED.pa, 0);
  }

  /** Every iteration succeeds, leaves the parent's table and all pages aside alone. */
  lemma SaneStep(k: VM, tp: Table, tc: Table, pid: int, v: nat)
    requires Sane(k, tp, tc) && 256 <= v < 768
    ensures ForkPage(k, tp.l1, tc.l1, pid, v).Ok?
    ensures var k' := ForkPage(k, tp.l1, tc.l1, pid, v).value;
            Sane(k', tp, tc) && forall x :: Aside(k, tp, tc, x) ==> k'.mem[x] == k.mem[x] && Aside(k', tp, tc, x)
  {
    hide Sane, Wired, Slot, ForkPage, WriteSlot, Iteration, Aside;
    SaneWired(k, tp, tc);
    var m, info, w := SaneForm(k, tp, tc, pid, v);
    IterationKeeps(k, tp, tc, m, info, v, w);
    forall x | Aside(k, tp, tc, x)
      ensures 0 <= x < 512 && WriteSlot(m, tc, v, w)[x] == k.mem[x]
              && Aside(VM(WriteSlot(m, tc, v, w), info), tp, tc, x)
    {
      AsideKept(k, tp, tc, m, info, v, w, x);
    }
  }

  lemma IterationKeeps(k: VM, tp: Table, tc: Table, m: Memory, info: Info, v: nat, w: Word)
    requires Sane(k, tp, tc) && Iteration(k, tp, tc, m, info) && v < 1024
    ensures Wired(m, tc) && Sane(VM(WriteSlot(m, tc, v, w), info), tp, tc)
    ensures forall u :: 0 <= u < 1024 ==> Slot(WriteSlot(m, tc, v, w), tp, u) == Slot(k.mem, tp, u)
    ensures forall u :: 0 <= u < 1024 ==>
              Slot(WriteSlot(m, tc, v, w), tc, u) == if u == v then w else Slot(k.mem, tc, u)
  {
    SaneWrite(k, tp, tc, m, info, v, w);
    hide Slot;
  }

  lemma AsideKept(k: VM, tp: Table, tc: Table, m: Memory, info: Info, v: nat, w: Word, x: int)
    requires Iteration(k, tp, tc, m, info) && v < 1024 && Aside(k, tp, tc, x) && Wired(m, tc)
    requires forall u :: 0 <= u < 1024 ==> Slot(WriteSlot(m, tc, v, w), tp, u) == Slot(k.mem, tp, u)
    ensures 0 <= x < 512 && WriteSlot(m, tc, v, w)[x] == k.mem[x] && Aside(VM(WriteSlot(m, tc, v, w), info), tp, tc, x)
  {
    WriteSlotPages(m, tc, v, w);
    hide Wired, Slot, WriteSlot, Frame;
  }

  /** So the loop always ends, whatever memory there is. */
  lemma {:induction false} SaneLoop(k: VM, tp: Table, tc: Table, pid: int, v: nat)
    requires Sane(k, tp, tc) && 256 <= v <= 768
    ensures ForkPages(k, tp.l1, tc.l1, pid, v).Ok?
    ensures var k' := ForkPages(k, tp.l1, tc.l1, pid, v).value;
            forall x :: Aside(k, tp, tc, x) ==> 0 <= x < 512 && k'.mem[x] == k.mem[x]
    decreases 768 - v
  {
    hide Sane, ForkPage, Aside;
    forall x | Aside(k, tp, tc, x) ensures 0 <= x < 512 {
      AsideBounds(k, tp, tc, x);
    }
    if v < 768 {
      SaneStep(k, tp, tc, pid, v);
      SaneLoop(ForkPage(k, tp.l1, tc.l1, pid, v).value, tp, tc, pid, v + 1);
    }
  }

  lemma AsideBounds(k: VM, tp: Table, tc: Table, x: int)
    requires Aside(k, tp, tc, x)
    ensures 0 <= x < 512
  {
  }

  /** The arguments of the calls the loop makes. */
  lemma SaneArgs(k: VM, tp: Table, tc: Table, pid: int, v: nat)
    requires Sane(k, tp, tc) && 256 <= v < 768
    ensures var vam := Lookup(k.mem, tp.l1, v * 4096);
            && vam.pn < 512
            && (vam.pa != CONSOLE_ADDR && Writable(vam.perm) ==>
                  && 0 <= vam.pa / 4096 < 512
                  && var page := AllocPage(k.info, pid).1;
                     page < 512 && MapArgs(v * 4096, page * 4096, 1, vam.perm)
                       && Wired(k.mem[page := PageAt(k.mem, vam.pa / 4096)], tc))
            && (!(vam.pa != CONSOLE_ADDR && Writable(vam.perm)) ==>
              vam.pa >= 0 && MapArgs(v * 4096, vam.pa, 1, vam.perm))
  {
    SaneWired(k, tp, tc);
    var e := Slot(k.mem, tp, v);
    assert SaneSlot(tp, tc, e);
    var f := Frame(e);
    hide Wired, Slot, Lookup, AllocPage, Writable, Full, ReadOnly, MapArgs, Decode, Frame, Disjoint;
    UserLookup(k.mem, tp, v);
    SaneAlloc(k, tp, tc, pid);
    var (info, page) := AllocPage(k.info, pid);
    FormArgs(v, page);
    if e == 0 {
      DecodeForms(0);
    } else {
      DecodeForms(f);
      FormArgs(v, f);
      assert f * 4096 / 4096 == f;
      SaneWrite(k, tp, tc, k.mem[page := PageAt(k.mem, f)], info, v, 0);
    }
  }

  // ------------------------------------------------------- from the invariant

  lemma InvSane(lay: Layout, k: VM, tabs: TableMap, role: Roles, p: int, c: int)
    requires Inv(lay, k, tabs, role) && p in tabs && c in tabs && p != c
    ensures Sane(k, tabs[p], tabs[c])
  {
    var tp, tc := tabs[p], tabs[c];
    SourceOk(lay, k, tabs, role, p);
    SourceOk(lay, k, tabs, role, c);
    TableInUse(lay, k, tabs, role, p);
    TableInUse(lay, k, tabs, role, c);
    ZeroIsSystem(lay, k, tabs, role);
    hide Inv, Wired, Slot, Full, ReadOnly, InUse, FramesInstalled;
    forall u | 256 <= u < 768 ensures SaneSlot(tp, tc, Slot(k.mem, tp, u)) {
      var f := ParentSlot(lay, k, tabs, role, p, u);
      SaneEntry(lay, k, tabs, role, p, u, f);
    }
  }

  lemma SaneEntry(lay: Layout, k: VM, tabs: TableMap, role: Roles, p: int, u: nat, f: nat)
    requires Inv(lay, k, tabs, role) && p in tabs && 256 <= u < 768 && f < 512
    requires Slot(k.mem, tabs[p], u) == 0 || Slot(k.mem, tabs[p], u) == Full(f)
             || Slot(k.mem, tabs[p], u) == ReadOnly(f)
    ensures var e := Slot(k.mem, tabs[p], u);
            e != 0 ==> Frame(e) == f && 0 < f && f != 0xB8 && !role[f].TablePage?
  {
    hide Full, ReadOnly, Frame, PteFlags, Present, Writable, UserOk;
    EntryForms(f);
    assert SlotOk(k.mem, tabs[p], role, p, u);
    SystemConsole(lay);
    SystemRole(lay, k, tabs, role, 0xB8);
    ZeroIsSystem(lay, k, tabs, role);
    hide Inv, Slot;
  }

  /** duplicate_pagetable has succeeded: the loop's starting point. */
  lemma ForkStart(s: State, tabs: TableMap, role: Roles) returns (k1: VM, t: Table, role1: Roles)
    requires KInv(s, tabs, role) && Live(s, s.current) && FreeSlot(s.procs, 1) < 16 && |FreePages(s.vm.info)| >= 5
    ensures var p, c := s.current, FreeSlot(s.procs, 1);
            && p in tabs && c !in tabs && s.procs[p].pagetable == tabs[p].l1
            && DuplicatePagetable(s.vm, tabs[p].l1, c) == Ok((k1, t.l1)) && t.l1 != 0
            && Inv(s.lay, k1, tabs[c := t], role1)
            && (forall u :: 0 <= u < 1024 ==> Slot(k1.mem, tabs[p], u) == Slot(s.vm.mem, tabs[p], u))
    ensures |FreePages(k1.info)| == |FreePages(s.vm.info)| - 5
  {
    hide Inv, DuplicatePagetable, Duplicated, Wired, Slot, FramesInstalled, InUse, FreePages, RolesWithTable,
         SlotsSame, AllocFive, FreeSlot, ProcsOk;
    var p, c := s.current, FreeSlot(s.procs, 1);
    FreshSlot(s, tabs);
    SourceOk(s.lay, s.vm, tabs, role, p);
    k1, t := DuplicateForm(s.vm, tabs[p], c);
    DuplicatedTable(s.vm, k1, tabs[p], t, c);
    JoinSpace(s.lay, s.vm, k1, tabs, role, tabs[p], t, c);
    role1 := RolesWithTable(role, t, c);
    FreeAfterDuplicate(s.vm, k1, tabs[p], t, c);
    SlotsKept(s.lay, s.vm.mem, k1.mem, tabs);
  }

  lemma SaneStart(s: State, tabs: TableMap, role: Roles, c: nat, k1: VM, root: nat) returns (t: Table)
    requires KInv(s, tabs, role) && Live(s, s.current) && c == FreeSlot(s.procs, 1) < 16
    requires DuplicatePagetable(s.vm, s.procs[s.current].pagetable, c) == Ok((k1, root)) && root != 0
    ensures t.l1 == root && s.current in tabs && Sane(k1, tabs[s.current], t)
  {
    hide KInv, DuplicatePagetable, Sane, FreePages, FreeSlot, Inv;
    FiveFree(s.vm, s.procs[s.current].pagetable, c);
    var k', role1;
    k', t, role1 := ForkStart(s, tabs, role);
    InvSane(s.lay, k1, tabs[c := t], role1, s.current, c);
  }

  /** The kernel's table and the parent's are aside. */
  lemma InvAside(lay: Layout, k: VM, tabs: TableMap, role: Roles, p: int, c: int, x: nat)
    requires Inv(lay, k, tabs, role) && p in tabs && c in tabs && p != c
    requires lay.KernelTable().Has(x) || tabs[p].Has(x)
    ensures x < 512 && Aside(k, tabs[p], tabs[c], x)
  {
    TableInUse(lay, k, tabs, role, p);
    TableInUse(lay, k, tabs, role, c);
    ZeroIsSystem(lay, k, tabs, role);
    SystemPage(lay, k, tabs, role, x);
    hide Inv, Slot, Frame;
    forall u | 256 <= u < 768 && Slot(k.mem, tabs[p], u) != 0 ensures Frame(Slot(k.mem, tabs[p], u)) != x {
      UserFrame(lay, k, tabs, role, p, u);
    }
  }

  lemma SystemPage(lay: Layout, k: VM, tabs: TableMap, role: Roles, x: nat)
    requires Inv(lay, k, tabs, role)
    ensures lay.KernelTable().Has(x) ==> 0 < x < 512 && role[x] == System && k.info[x].refcount == 1
  {
    if lay.KernelTable().Has(x) {
      KernelPages(lay, k.mem, x);
      SystemRole(lay, k, tabs, role, x);
      assert PageOk(lay, k, tabs, role, x);
    }
  }

  lemma UserFrame(lay: Layout, k: VM, tabs: TableMap, role: Roles, p: int, u: nat)
    requires Inv(lay, k, tabs, role) && p in tabs && 256 <= u < 768 && Slot(k.mem, tabs[p], u) != 0
    ensures var f := Frame(Slot(k.mem, tabs[p], u)); f < 512 && (role[f].Private? || role[f].Shared?)
  {
    assert SlotOk(k.mem, tabs[p], role, p, u);
  }

  /** After the loop the parent's table can still be activated. */
  lemma ForkActivates(lay: Layout, k: VM, k': VM, tabs: TableMap, role: Roles, p: int, c: int)
    requires Inv(lay, k, tabs, role) && p in tabs && c in tabs && p != c
    requires forall x :: Aside(k, tabs[p], tabs[c], x) ==> 0 <= x < 512 && k'.mem[x] == k.mem[x]
    ensures SetPagetableOk(k'.mem, lay, tabs[p].l1) && KernelTableOk(lay, k'.mem) && Wired(k'.mem, tabs[p])
  {
    var t := tabs[p];
    SourceOk(lay, k, tabs, role, p);
    assert KernelTableOk(lay, k.mem);
    hide Inv, Wired, Slot, Aside, KernelTableOk, SetPagetableOk, FramesInstalled, InUse, LowEntry;
    forall x: nat | x < 512 && lay.KernelTable().Has(x) ensures k'.mem[x] == k.mem[x] {
      InvAside(lay, k, tabs, role, p, c, x);
    }
    KernelTableFrame(lay, k.mem, k'.mem);
    assert t.Has(t.l1) && t.Has(t.l2) && t.Has(t.l3) && t.Has(t.lo) && t.Has(t.hi);
    InvAside(lay, k, tabs, role, p, c, t.l1);
    InvAside(lay, k, tabs, role, p, c, t.l2);
    InvAside(lay, k, tabs, role, p, c, t.l3);
    InvAside(lay, k, tabs, role, p, c, t.lo);
    InvAside(lay, k, tabs, role, p, c, t.hi);
    TableFrame(k.mem, k'.mem, t);
    LowActivates(lay, k'.mem, t);
  }

  // ----------------------------------------------------------------- the handlers

  ghost predicate Consistent(s: State) {
    exists tabs: TableMap, role: Roles :: KInv(s, tabs, role)
  }

  /** In a consistent state every table the kernel looks through is well-formed. */
  lemma ConsistentTables(s: State)
    requires Consistent(s)
    ensures WellFormed(s.vm.mem, s.lay.tables)
    ensures forall p :: 0 <= p < 16 && s.procs[p].state != P_FREE ==> WellFormed(s.vm.mem, s.procs[p].pagetable)
  {
    var tabs: TableMap, role: Roles :| KInv(s, tabs, role);
    assert Wired(s.vm.mem, s.lay.KernelTable());
    WiredWellFormed(s.vm.mem, s.lay.KernelTable());
    hide Inv, Wired, WellFormed;
    forall p | 0 <= p < 16 && s.procs[p].state != P_FREE ensures WellFormed(s.vm.mem, s.procs[p].pagetable) {
      assert Live(s, p);
      LiveWired(s.lay, s.vm, tabs, role, p);
      WiredWellFormed(s.vm.mem, tabs[p]);
    }
  }

  /** The tables that run and schedule may go through next are well-formed. */
  ghost predicate LeavesTables(s: State, call: Call)
    requires s.current < 16
  {
    && WellFormed(s.vm.mem, s.lay.tables)
    && forall p :: 0 <= p < 16 && s.procs[p].state == P_RUNNABLE && (p == s.current || Reschedules(s, call)) ==>
         WellFormed(s.vm.mem, s.procs[p].pagetable)
  }

  /** The two requests that stop the kernel: a misaligned page_alloc that gets as far
      as virtual_memory_map, and a fork that cannot have a page table. */
  predicate Refused(s: State, call: Call) {
    match call
    case PageAlloc(addr) => addr >= PROC_START_ADDR && addr % 4096 != 0 && FreePages(s.vm.info) != {}
    case Fork => FreeSlot(s.procs, 1) < 16 && |FreePages(s.vm.info)| < 5
    case _ => false
  }

  /** A fork goes through exactly when it finds no slot or five free pages. */
  lemma ForkPanicsIff(s: State, tabs: TableMap, role: Roles)
    requires KInv(s, tabs, role) && Live(s, s.current) && FreeSlot(s.procs, 1) < 16
    ensures SysFork(s).Ok? <==> |FreePages(s.vm.info)| >= 5
    ensures SysFork(s).Ok? ==> var s1 := SysFork(s).value;
              && s1.procs[s.current].state == s.procs[s.current].state && s1.current == s.current
                && RunCurrent(s1) == Ok(s1)
              && (s.procs[s.current].state == P_RUNNABLE ==> LeavesTables(s1, Fork))
  {
    hide ProcsOk, ForkPages, ForkSpace, DuplicatePagetable, FreePages, FreeSlot, Sane, Inv, Aside, SetPagetableOk,
         SysFork;
    var p, c := s.current, FreeSlot(s.procs, 1);
    FreshSlot(s, tabs);
    if |FreePages(s.vm.info)| >= 5 {
      var k1, t, role1 := ForkStart(s, tabs, role);
      InvSane(s.lay, k1, tabs[c := t], role1, p, c);
      SaneLoop(k1, tabs[p], t, c, 256);
      var k' := ForkPages(k1, tabs[p].l1, t.l1, c, 256).value;
      ForkActivates(s.lay, k1, k', tabs[c := t], role1, p, c);
      ForkSpaceForm(s.vm, tabs[p].l1, c, k1, t.l1, k');
      ForkVm(s, k', t.l1);
      ForkTables(SysFork(s).value, tabs[p]);
    } else if DuplicatePagetable(s.vm, tabs[p].l1, c).Ok? && DuplicatePagetable(s.vm, tabs[p].l1, c).value.1 != 0 {
      FiveFree(s.vm, tabs[p].l1, c);
    } else {
      ForkFails(s);
    }
  }

  lemma ForkTables(s: State, t: Table)
    requires s.current < 16 && KernelTableOk(s.lay, s.vm.mem) && Wired(s.vm.mem, t)
             && s.procs[s.current].pagetable == t.l1
    ensures s.procs[s.current].state == P_RUNNABLE ==> LeavesTables(s, Fork)
  {
    hide WellFormed, Wired;
    WiredWellFormed(s.vm.mem, s.lay.KernelTable());
    WiredWellFormed(s.vm.mem, t);
  }

  lemma ForkSpaceForm(k: VM, parent: nat, c: int, k1: VM, child: nat, k': VM)
    requires DuplicatePagetable(k, parent, c) == Ok((k1, child)) && child != 0
             && ForkPages(k1, parent, child, c, 256) == Ok(k')
    ensures ForkSpace(k, parent, c) == Ok((k', child))
  {
    hide DuplicatePagetable, ForkPages;
  }

  lemma ForkFails(s: State)
    requires s.current < 16 && FreeSlot(s.procs, 1) < 16
    requires var r := DuplicatePagetable(s.vm, s.procs[s.current].pagetable, FreeSlot(s.procs, 1));
             r.Ok? ==> r.value.1 == 0
    ensures SysFork(s).Panic?
  {
    hide DuplicatePagetable, ForkPages, FreeSlot;
  }

  /** page_alloc panics exactly for a misaligned address with a page to map. */
  lemma PageAllocPanicsIff(s: State, tabs: TableMap, role: Roles, addr: Va)
    requires KInv(s, tabs, role) && Live(s, s.current)
    ensures SysPageAlloc(s, addr).Panic? <==> Refused(s, PageAlloc(addr))
    ensures SysPageAlloc(s, addr).Ok? ==> exists role' :: KInv(SysPageAlloc(s, addr).value, tabs, role')
  {
    hide KInv, SysPageAlloc, FreePages;
    AllocTakes(s.vm.info, s.current);
    if addr % 4096 == 0 || addr < PROC_START_ADDR {
      hide Exact, Owned;
      var s', role' := PageAllocStepKeeps(Loose, s, tabs, role, addr);
    } else if FreePages(s.vm.info) == {} {
      FullMemory(s, tabs, role, addr);
    } else {
      Misaligned(s, addr);
    }
  }

  lemma FullMemory(s: State, tabs: TableMap, role: Roles, addr: Va)
    requires KInv(s, tabs, role) && Live(s, s.current) && AllocPage(s.vm.info, s.current).1 == 0
    ensures SysPageAlloc(s, addr).Ok? && KInv(SysPageAlloc(s, addr).value, tabs, role)
  {
    hide Inv, Exact, Owned, MapPage;
    SameSpaces(Loose, s, SysPageAlloc(s, addr).value, tabs, role);
  }

  lemma Misaligned(s: State, addr: Va)
    requires s.current < 16 && addr >= PROC_START_ADDR && addr % 4096 != 0 && AllocPage(s.vm.info, s.current).1 != 0
    ensures SysPageAlloc(s, addr).Panic?
  {
    hide FindFree;
  }

  /** Every other handler succeeds and leaves a consistent state. */
  lemma HandlePanicsIff(s: State, tabs: TableMap, role: Roles, call: Call)
    requires KInv(s, tabs, role) && Live(s, s.current) && s.procs[s.current].state == P_RUNNABLE
    ensures Handle(s, call).Panic? <==> Refused(s, call)
    ensures Handle(s, call).Ok? ==>
              var s1 := Handle(s, call).value;
              RunCurrent(if Reschedules(s1, call) then Dispatch(s1) else s1).Ok? && LeavesTables(s1, call)
  {
    hide Inv, Exact, Owned, FreePages, FreeSlot, SysFork, SysPageAlloc, SysExit, Dispatch, RunCurrent, ProcsOk,
         LeavesTables;
    match call {
      case Fork =>
        if FreeSlot(s.procs, 1) == 16 {
          NoSlot(s);
          SameLeaves(s, SysFork(s).value, tabs, role);
        } else {
          ForkPanicsIff(s, tabs, role);
        }
      case PageAlloc(addr) =>
        PageAllocPanicsIff(s, tabs, role, addr);
        if SysPageAlloc(s, addr).Ok? {
          var role' :| KInv(SysPageAlloc(s, addr).value, tabs, role');
          Leaves(SysPageAlloc(s, addr).value, tabs, role');
        }
      case Exit =>
        var tabs', role' := ExitStepKeeps(Loose, s, tabs, role);
        Leaves(SysExit(s), tabs', role');
      case _ =>
        SameLeaves(s, Handle(s, call).value, tabs, role);
    }
  }

  lemma Leaves(s: State, tabs: TableMap, role: Roles)
    requires KInv(s, tabs, role)
    ensures s.current < 16 && RunCurrent(s).Ok? && RunCurrent(Dispatch(s)).Ok? && forall call :: LeavesTables(s, call)
  {
    hide Inv, Exact, Owned, Dispatch, RunCurrent, WellFormed;
    ConsistentTables(s);
    RunHolds(s, tabs, role);
    DispatchKeeps(Loose, s, tabs, role);
    RunHolds(Dispatch(s), tabs, role);
  }

  lemma SameLeaves(s: State, s': State, tabs: TableMap, role: Roles)
    requires KInv(s, tabs, role) && s'.lay == s.lay && s'.vm == s.vm && s'.current < 16
    requires forall p :: 0 <= p < 16 ==>
               (s'.procs[p].state == P_FREE <==> s.procs[p].state == P_FREE)
                 && s'.procs[p].pagetable == s.procs[p].pagetable
    ensures RunCurrent(s').Ok? && RunCurrent(Dispatch(s')).Ok? && forall call :: LeavesTables(s', call)
  {
    hide Inv, Exact, Owned, Dispatch, RunCurrent, LeavesTables;
    SameSpaces(Loose, s, s', tabs, role);
    Leaves(s', tabs, role);
  }

  /** From every consistent state a trap stops the kernel exactly when the self-check
      fails or the request is one of the two that are refused. */
  lemma TrapPanicsIff(s: State, tabs: TableMap, role: Roles, e: Event)
    requires KInv(s, tabs, role) && Enabled(s, e) && e.Trap?
    ensures Step(s, e).Panic? <==> !CheckVirtualMemory(s) || Refused(s, e.call)
  {
    hide Inv, Exact, Owned, Handle, Dispatch, RunCurrent, CheckVirtualMemory, Trapped, FreePages, FreeSlot,
         LeavesTables;
    var s0 := Saved(s, e.regs);
    EntryChecks(s, tabs, role, e.regs, e.call);
    SavedKeeps(Loose, s, tabs, role, e.regs);
    FreeSlotSaved(s.procs, s0.procs, 1);
    HandlePanicsIff(s0, tabs, role, e.call);
  }
}
